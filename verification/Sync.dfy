/** The @sync checker (crates/eronom-frontend/src/sync.rs): what it accepts, and its traversal. */
module Sync {
  import opened Options
  import opened Ast
  import opened Effects

  // What the checker says code stands in.
  datatype Surrounding = Nowhere | MarkedFunction(name: string) | MarkedClosure | SyncBlock

  datatype Fault =
    | CallInside(callee: string, around: Surrounding)
    | AwaitInside(around: Surrounding)
    | ConcurrentInside(around: Surrounding)
    | SortSuspends
    | MarkedSuspends(name: string)
    | ClosureSuspends
    | BlockSuspends
    | ComparisonSuspends(struct: string, name: string)

  datatype EffectError = EffectError(fault: Fault, loc: Location)

  // The texts that are printed.
  function Description(s: Surrounding): string
  {
    match s
    case Nowhere => ""
    case MarkedFunction(name) => "@sync function '" + name + "'"
    case MarkedClosure => "@sync closure"
    case SyncBlock => "sync block"
  }

  function InsideMessage(what: string, around: Surrounding): string
  {
    "Cannot " + what + " inside " + Description(around) + ": synchronous contexts must not suspend."
  }

  function Message(f: Fault): string
  {
    match f
    case CallInside(name, around) => InsideMessage("call '" + name + "'", around)
    case AwaitInside(around) => InsideMessage("use 'await'", around)
    case ConcurrentInside(around) => InsideMessage("use 'concurrent' block", around)
    case SortSuspends => "Cannot pass suspending function to 'sort': sorting comparators must be @sync."
    case MarkedSuspends(name) => "Function '" + name + "' is marked @sync, but performs suspending operation(s)."
    case ClosureSuspends => "Closure is marked @sync, but performs suspending operation(s)."
    case BlockSuspends => "Code inside 'sync' block performs suspending operation(s)."
    case ComparisonSuspends(struct, name) =>
      "Struct comparison method '" + struct + "." + name + "' cannot suspend: comparisons must be @sync."
  }

  predicate IsComparison(name: string)
  {
    name in ["compare", "compareTo", "equals", "hashCode"]
  }

  // The rung of what is handed to sort.
  function ComparatorRung(arg: Expr, fns: Rungs): EffectRung
  {
    match arg
    case Function(_, body, _, _) => InferStmt(body, fns)
    case Variable(name, _) => RungOf(fns, name)
    case other => InferExpr(other, fns)
  }

  // ---------------------------------------------------------------- what is accepted

  // Does everything inside the node stand in a synchronous context?
  predicate EntersSync(n: Node)
  {
    (n.E? && n.expr.Function? && n.expr.isSync) || (n.S? && n.stmt.Sync?)
  }

  predicate SortOk(callee: Expr, args: seq<Expr>, fns: Rungs)
  {
    callee.Get? && callee.prop == "sort" && args != [] ==> ComparatorRung(args[0], fns) != Suspends
  }

  predicate MethodOk(m: Method, fns: Rungs)
  {
    IsComparison(m.name) ==> InferStmt(m.body, fns) != Suspends
  }

  // Is there nothing to report about the node itself?
  ghost predicate LocalOk(n: Node, inSync: bool, fns: Rungs)
  {
    match n
    case E(Call(callee, args)) => (inSync ==> InferExpr(n.expr, fns) != Suspends) && SortOk(callee, args, fns)
    case E(Function(_, body, _, isSync)) => isSync ==> InferStmt(body, fns) != Suspends
    case E(Await(_)) => !inSync
    case S(Sync(body)) => InferStmt(body, fns) != Suspends
    case S(Concurrent(_)) => !inSync
    case S(Struct(_, _, methods, _)) => forall i :: 0 <= i < |methods| ==> MethodOk(methods[i], fns)
    case _ => true
  }

  // Nothing to report about the node and everything in it.
  ghost predicate CleanExpr(e: Expr, inSync: bool, fns: Rungs)
    decreases e
  {
    && LocalOk(E(e), inSync, fns)
    && forall i :: 0 <= i < |Children(E(e))| ==>
         (ExprPartSmaller(e, i);
          match Children(E(e))[i]
          case E(x) => CleanExpr(x, inSync || EntersSync(E(e)), fns)
          case S(t) => CleanStmt(t, inSync || EntersSync(E(e)), fns))
  }

  ghost predicate CleanStmt(t: Stmt, inSync: bool, fns: Rungs)
    decreases t
  {
    && LocalOk(S(t), inSync, fns)
    && forall i :: 0 <= i < |Children(S(t))| ==>
         (StmtPartSmaller(t, i);
          match Children(S(t))[i]
          case E(x) => CleanExpr(x, inSync || EntersSync(S(t)), fns)
          case S(u) => CleanStmt(u, inSync || EntersSync(S(t)), fns))
  }

  ghost predicate Clean(n: Node, inSync: bool, fns: Rungs)
  {
    match n case E(e) => CleanExpr(e, inSync, fns) case S(t) => CleanStmt(t, inSync, fns)
  }

  ghost predicate CleanAll(ns: seq<Node>, inSync: bool, fns: Rungs)
  {
    forall i :: 0 <= i < |ns| ==> Clean(ns[i], inSync, fns)
  }

  lemma CleanUnfold(n: Node, inSync: bool, fns: Rungs)
    ensures Clean(n, inSync, fns) <==> LocalOk(n, inSync, fns) && CleanAll(Children(n), inSync || EntersSync(n), fns)
  {
    hide LocalOk, Children;
  }

  lemma CleanOne(n: Node, inSync: bool, fns: Rungs)
    ensures CleanAll([n], inSync, fns) <==> Clean(n, inSync, fns)
  {
    hide Clean;
    assert [n][0] == n;
  }

  lemma CleanTwo(a: Node, b: Node, inSync: bool, fns: Rungs)
    ensures CleanAll([a, b], inSync, fns) <==> Clean(a, inSync, fns) && Clean(b, inSync, fns)
  {
    hide Clean;
    assert [a, b][0] == a && [a, b][1] == b;
  }

  ghost predicate Accepted(stmts: seq<Stmt>, fns: Rungs)
  {
    forall i :: 0 <= i < |stmts| ==> Clean(S(stmts[i]), false, fns)
  }

  function CalleeName(callee: Expr): string
  {
    match callee case Variable(n, _) => n case Get(_, m) => m case _ => "suspending expression"
  }

  function CalleeLocation(callee: Expr): Location
  {
    if callee.Variable? then callee.loc else NOWHERE
  }

  // ---------------------------------------------------------------- what is reported

  // Where code stands: in a synchronous context of that description, or not.
  datatype Context = Context(inSync: bool, around: Surrounding)

  // What a node is to the one around it: what a name is declared as, the body of a method, or no more
  // than a part.
  datatype Role = Plain | InitOf(name: string, loc: Location) | MethodOf(struct: string, name: string, loc: Location)

  function RoleOf(n: Node, i: nat): Role
  {
    match n
    case S(VarDecl(name, _, _, loc)) => InitOf(name, loc)
    case S(Struct(name, _, methods, loc)) => if i < |methods| then MethodOf(name, methods[i].name, loc) else Plain
    case _ => Plain
  }

  // The context of what is inside a node.
  function Inside(n: Node, role: Role, c: Context): Context
  {
    if !EntersSync(n) then c
    else if n.S? then Context(true, SyncBlock)
    else Context(true, if role.InitOf? then MarkedFunction(role.name) else MarkedClosure)
  }

  function When(found: bool, fault: Fault, loc: Location): seq<EffectError>
  {
    if found then [EffectError(fault, loc)] else []
  }

  function RoleReports(n: Node, role: Role, fns: Rungs): seq<EffectError>
  {
    if role.MethodOf? then
      When(IsComparison(role.name) && Infer(n, fns) == Suspends, ComparisonSuspends(role.struct, role.name), role.loc)
    else []
  }

  function CallReports(callee: Expr, args: seq<Expr>, c: Context, fns: Rungs): seq<EffectError>
  {
    When(c.inSync && InferExpr(Call(callee, args), fns) == Suspends, CallInside(CalleeName(callee), c.around),
      CalleeLocation(callee))
      + if args == [] then [] else When(!SortOk(callee, args, fns), SortSuspends, CalleeLocation(args[0]))
  }

  function FunctionReports(body: Stmt, role: Role, fns: Rungs): seq<EffectError>
  {
    When(InferStmt(body, fns) == Suspends, if role.InitOf? then MarkedSuspends(role.name) else ClosureSuspends,
         if role.InitOf? then role.loc else NOWHERE)
  }

  // What is reported about a node itself.
  function OwnReports(n: Node, role: Role, c: Context, fns: Rungs): seq<EffectError>
  {
    match n
    case E(Call(callee, args)) => CallReports(callee, args, c, fns)
    case E(Function(_, body, _, isSync)) => if isSync then FunctionReports(body, role, fns) else []
    case E(Await(_)) => When(c.inSync, AwaitInside(c.around), NOWHERE)
    case S(Sync(body)) => When(InferStmt(body, fns) == Suspends, BlockSuspends, NOWHERE)
    case S(Concurrent(_)) => When(c.inSync, ConcurrentInside(c.around), NOWHERE)
    case _ => []
  }

  function Flatten(ls: seq<seq<EffectError>>): seq<EffectError>
    decreases |ls|
  {
    if ls == [] then [] else Flatten(ls[..|ls| - 1]) + ls[|ls| - 1]
  }

  // All reports about a node and what it contains: its own first, then those of its constituents.
  ghost function ExprReports(e: Expr, role: Role, c: Context, fns: Rungs): seq<EffectError>
    decreases e
  {
    var n := E(e);
    var ns := Children(n);
    RoleReports(n, role, fns) + OwnReports(n, role, c, fns) +
    Flatten(seq(|ns|, i requires 0 <= i < |ns| =>
      ExprPartSmaller(e, i);
      match ns[i]
      case E(x) => ExprReports(x, RoleOf(n, i), Inside(n, role, c), fns)
      case S(t) => StmtReports(t, RoleOf(n, i), Inside(n, role, c), fns)))
  }

  ghost function StmtReports(t: Stmt, role: Role, c: Context, fns: Rungs): seq<EffectError>
    decreases t
  {
    var n := S(t);
    var ns := Children(n);
    RoleReports(n, role, fns) + OwnReports(n, role, c, fns) +
    Flatten(seq(|ns|, i requires 0 <= i < |ns| =>
      StmtPartSmaller(t, i);
      match ns[i]
      case E(x) => ExprReports(x, RoleOf(n, i), Inside(n, role, c), fns)
      case S(u) => StmtReports(u, RoleOf(n, i), Inside(n, role, c), fns)))
  }

  ghost function Reports(n: Node, role: Role, c: Context, fns: Rungs): seq<EffectError>
  {
    match n case E(e) => ExprReports(e, role, c, fns) case S(t) => StmtReports(t, role, c, fns)
  }

  // What is reported about the constituents of a node, each by itself.
  ghost function Within(n: Node, ns: seq<Node>, c: Context, fns: Rungs): (ls: seq<seq<EffectError>>)
    ensures |ls| == |ns| && forall i :: 0 <= i < |ns| ==> ls[i] == Reports(ns[i], RoleOf(n, i), c, fns)
  {
    hide Reports, RoleOf;
    seq(|ns|, i requires 0 <= i < |ns| => Reports(ns[i], RoleOf(n, i), c, fns))
  }

  ghost function Each(ns: seq<Node>, c: Context, fns: Rungs): (ls: seq<seq<EffectError>>)
    ensures |ls| == |ns| && forall i :: 0 <= i < |ns| ==> ls[i] == Reports(ns[i], Plain, c, fns)
  {
    hide Reports;
    seq(|ns|, i requires 0 <= i < |ns| => Reports(ns[i], Plain, c, fns))
  }

  ghost function AllReports(ns: seq<Node>, c: Context, fns: Rungs): seq<EffectError>
  {
    Flatten(Each(ns, c, fns))
  }

  lemma ReportsUnfold(n: Node, role: Role, c: Context, fns: Rungs)
    ensures Reports(n, role, c, fns)
      == RoleReports(n, role, fns) + OwnReports(n, role, c, fns)
        + Flatten(Within(n, Children(n), Inside(n, role, c), fns))
  {
    hide OwnReports, RoleReports, Inside, RoleOf, Flatten;
    var ns := Children(n);
    hide Children;
    match n {
      case E(e) =>
        assert Within(n, ns, Inside(n, role, c), fns) == seq(|ns|, i requires 0 <= i < |ns| =>
          ExprPartSmaller(e, i);
          match ns[i]
          case E(x) => ExprReports(x, RoleOf(n, i), Inside(n, role, c), fns)
          case S(t) => StmtReports(t, RoleOf(n, i), Inside(n, role, c), fns));
      case S(t) =>
        assert Within(n, ns, Inside(n, role, c), fns) == seq(|ns|, i requires 0 <= i < |ns| =>
          StmtPartSmaller(t, i);
          match ns[i]
          case E(x) => ExprReports(x, RoleOf(n, i), Inside(n, role, c), fns)
          case S(u) => StmtReports(u, RoleOf(n, i), Inside(n, role, c), fns));
    }
  }

  lemma FlattenOne(l: seq<EffectError>)
    ensures Flatten([l]) == l && Flatten([]) == []
  {
    assert [l][..0] == [];
  }

  lemma {:induction false} FlattenConcat(a: seq<seq<EffectError>>, b: seq<seq<EffectError>>)
    ensures Flatten(a + b) == Flatten(a) + Flatten(b)
    decreases |b|
  {
    if b == [] {
      assert a + b == a;
    } else {
      var b' := b[..|b| - 1];
      assert (a + b)[..|a + b| - 1] == a + b' && (a + b)[|a + b| - 1] == b[|b| - 1];
      FlattenConcat(a, b');
    }
  }

  lemma {:induction false} FlattenSilent(ls: seq<seq<EffectError>>)
    ensures Flatten(ls) == [] <==> forall i :: 0 <= i < |ls| ==> ls[i] == []
    decreases |ls|
  {
    if ls != [] {
      var front := ls[..|ls| - 1];
      FlattenSilent(front);
      assert forall i :: 0 <= i < |front| ==> ls[i] == front[i];
    }
  }

  // What is reported about a node with one, two or three constituents, or a list of them.
  // Nodes about which nothing is reported themselves, and whose constituents are no more than parts.
  predicate Quiet(n: Node)
  {
    match n
    case E(e) => !e.Call? && !e.Function? && !e.Await?
    case S(t) => !t.Sync? && !t.Concurrent? && !t.VarDecl? && !t.Struct?
  }

  lemma QuietOwn(n: Node, c: Context, fns: Rungs)
    requires Quiet(n)
    ensures OwnReports(n, Plain, c, fns) == [] && Inside(n, Plain, c) == c && forall i: nat :: RoleOf(n, i) == Plain
  {
  }

  predicate PlainInside(n: Node) { !(n.S? && (n.stmt.VarDecl? || n.stmt.Struct?)) }

  lemma PlainReports(n: Node, c: Context, fns: Rungs)
    requires PlainInside(n)
    ensures Reports(n, Plain, c, fns)
      == OwnReports(n, Plain, c, fns) + AllReports(Children(n), Inside(n, Plain, c), fns)
  {
    hide Children, OwnReports, Reports, Inside, Flatten;
    ReportsUnfold(n, Plain, c, fns);
    assert Within(n, Children(n), Inside(n, Plain, c), fns) == Each(Children(n), Inside(n, Plain, c), fns);
  }

  lemma QuietReports(n: Node, c: Context, fns: Rungs)
    requires Quiet(n)
    ensures Reports(n, Plain, c, fns) == AllReports(Children(n), c, fns)
  {
    hide Children, OwnReports, Reports, Inside, AllReports;
    PlainReports(n, c, fns);
    QuietOwn(n, c, fns);
  }

  lemma Reports1(n: Node, role: Role, a: Node, c: Context, fns: Rungs)
    requires Children(n) == [a] && !role.MethodOf?
    ensures Reports(n, role, c, fns) == OwnReports(n, role, c, fns) + Reports(a, RoleOf(n, 0), Inside(n, role, c), fns)
  {
    hide Children, OwnReports, Reports, Inside, RoleOf, Flatten;
    ReportsUnfold(n, role, c, fns);
    var l := Reports(a, RoleOf(n, 0), Inside(n, role, c), fns);
    assert Within(n, [a], Inside(n, role, c), fns) == [l];
    FlattenOne(l);
  }

  lemma AllOne(a: Node, c: Context, fns: Rungs)
    ensures AllReports([a], c, fns) == Reports(a, Plain, c, fns) && AllReports([], c, fns) == []
  {
    hide Reports, Flatten;
    assert Each([a], c, fns) == [Reports(a, Plain, c, fns)];
    FlattenOne(Reports(a, Plain, c, fns));
  }

  lemma AllConcat(a: seq<Node>, b: seq<Node>, c: Context, fns: Rungs)
    ensures AllReports(a + b, c, fns) == AllReports(a, c, fns) + AllReports(b, c, fns)
  {
    hide Reports, Flatten;
    assert Each(a + b, c, fns) == Each(a, c, fns) + Each(b, c, fns);
    FlattenConcat(Each(a, c, fns), Each(b, c, fns));
  }

  // What is reported about a quiet node with one, two or three constituents, or none.
  lemma Quiet0(n: Node, c: Context, fns: Rungs)
    requires Children(n) == [] && Quiet(n)
    ensures Reports(n, Plain, c, fns) == []
  {
    hide Children, Reports, AllReports, Quiet;
    QuietReports(n, c, fns);
    AllOne(n, c, fns);
  }

  lemma Quiet1(n: Node, a: Node, c: Context, fns: Rungs)
    requires Children(n) == [a] && Quiet(n)
    ensures Reports(n, Plain, c, fns) == Reports(a, Plain, c, fns)
  {
    hide Children, Reports, AllReports, Quiet;
    QuietReports(n, c, fns);
    AllOne(a, c, fns);
  }

  lemma Quiet2(n: Node, a: Node, b: Node, c: Context, fns: Rungs, es: seq<EffectError>)
    requires Children(n) == [a, b] && Quiet(n)
    ensures es + Reports(n, Plain, c, fns) == es + Reports(a, Plain, c, fns) + Reports(b, Plain, c, fns)
  {
    hide Children, Reports, AllReports, Quiet;
    QuietReports(n, c, fns);
    assert [a] + [b] == [a, b];
    AllConcat([a], [b], c, fns);
    AllOne(a, c, fns);
    AllOne(b, c, fns);
  }

  lemma Quiet3(n: Node, x: Node, y: Node, z: Node, c: Context, fns: Rungs, es: seq<EffectError>)
    requires Children(n) == [x, y, z] && Quiet(n)
    ensures es + Reports(n, Plain, c, fns)
      == es + Reports(x, Plain, c, fns) + Reports(y, Plain, c, fns) + Reports(z, Plain, c, fns)
  {
    hide Children, Reports, AllReports, Quiet;
    QuietReports(n, c, fns);
    assert [x] + [y] + [z] == [x, y, z];
    AllConcat([x] + [y], [z], c, fns);
    AllConcat([x], [y], c, fns);
    AllOne(x, c, fns);
    AllOne(y, c, fns);
    AllOne(z, c, fns);
  }

  // The same for lists of them.
  lemma QuietParts(n: Node, x: seq<Node>, y: seq<Node>, z: seq<Node>, c: Context, fns: Rungs, es: seq<EffectError>)
    requires Children(n) == x + y + z && Quiet(n)
    ensures es + Reports(n, Plain, c, fns)
      == es + AllReports(x, c, fns) + AllReports(y, c, fns) + AllReports(z, c, fns)
  {
    hide Children, Reports, AllReports, Quiet;
    QuietReports(n, c, fns);
    AllConcat(x + y, z, c, fns);
    AllConcat(x, y, c, fns);
  }

  lemma SameOwn(n: Node, role: Role, c: Context, fns: Rungs)
    requires role.InitOf? ==> !(n.E? && n.expr.Function? && n.expr.isSync)
    ensures OwnReports(n, role, c, fns) == OwnReports(n, Plain, c, fns) && Inside(n, role, c) == Inside(n, Plain, c)
    ensures RoleReports(n, Plain, fns) == []
  {
    hide InferStmt, InferExpr, CallReports;
  }

  // The role matters only to what is declared as a sync function, and to methods.
  lemma RoleMatters(n: Node, role: Role, c: Context, fns: Rungs)
    requires role.InitOf? ==> !(n.E? && n.expr.Function? && n.expr.isSync)
    ensures Reports(n, role, c, fns) == RoleReports(n, role, fns) + Reports(n, Plain, c, fns)
  {
    hide Children, Reports, OwnReports, RoleReports, Inside, Flatten, RoleOf;
    SameOwn(n, role, c, fns);
    ReportsUnfold(n, role, c, fns);
    ReportsUnfold(n, Plain, c, fns);
  }

  lemma CallNode(e: Expr, c: Context, fns: Rungs)
    requires e.Call?
    ensures Children(E(e)) == [E(e.callee)] + ExprNodes(e.args) && PlainInside(E(e)) && Inside(E(e), Plain, c) == c
    ensures OwnReports(E(e), Plain, c, fns) == CallReports(e.callee, e.args, c, fns)
  {
    hide CallReports;
  }

  // What is reported about the other nodes.
  lemma CallAll(e: Expr, c: Context, fns: Rungs, es: seq<EffectError>)
    requires e.Call?
    ensures es + Reports(E(e), Plain, c, fns) == es + CallReports(e.callee, e.args, c, fns)
      + Reports(E(e.callee), Plain, c, fns) + AllReports(ExprNodes(e.args), c, fns)
  {
    hide Children, Reports, AllReports, CallReports, OwnReports, Inside, PlainInside;
    CallNode(e, c, fns);
    PlainReports(E(e), c, fns);
    AllConcat([E(e.callee)], ExprNodes(e.args), c, fns);
    AllOne(E(e.callee), c, fns);
  }

  lemma OnlyChild(n: Node)
    ensures n.E? && n.expr.Await? ==> Children(n) == [E(n.expr.inner)]
    ensures n.E? && n.expr.Function? ==> Children(n) == [S(n.expr.body)]
    ensures n.S? && n.stmt.VarDecl? ==> Children(n) == [E(n.stmt.init)]
    ensures n.S? && n.stmt.Sync? ==> Children(n) == [S(n.stmt.body)]
    ensures n.S? && n.stmt.Concurrent? ==> Children(n) == [S(n.stmt.body)]
  {
  }

  lemma FunctionAll(e: Expr, role: Role, c: Context, fns: Rungs)
    requires e.Function? && !role.MethodOf?
    ensures Reports(E(e), role, c, fns) ==
      if e.isSync then FunctionReports(e.body, role, fns)
        + Reports(S(e.body), Plain, Context(true, if role.InitOf? then MarkedFunction(role.name) else MarkedClosure),
          fns)
      else Reports(S(e.body), Plain, c, fns)
  {
    hide Children, Reports, FunctionReports;
    OnlyChild(E(e));
    Reports1(E(e), role, S(e.body), c, fns);
  }

  lemma AwaitAll(e: Expr, c: Context, fns: Rungs)
    requires e.Await?
    ensures Reports(E(e), Plain, c, fns)
      == When(c.inSync, AwaitInside(c.around), NOWHERE) + Reports(E(e.inner), Plain, c, fns)
  {
    hide Children, Reports, When;
    OnlyChild(E(e));
    Reports1(E(e), Plain, E(e.inner), c, fns);
  }

  lemma DeclarationAll(t: Stmt, c: Context, fns: Rungs)
    requires t.VarDecl?
    ensures Reports(S(t), Plain, c, fns) ==
      if t.init.Function? && t.init.isSync then
        When(InferStmt(t.init.body, fns) == Suspends, MarkedSuspends(t.name), t.loc)
          + Reports(S(t.init.body), Plain, Context(true, MarkedFunction(t.name)), fns)
      else Reports(E(t.init), Plain, c, fns)
  {
    hide Children, Reports, InferStmt;
    OnlyChild(S(t));
    Reports1(S(t), Plain, E(t.init), c, fns);
    if t.init.Function? && t.init.isSync {
      FunctionAll(t.init, InitOf(t.name, t.loc), c, fns);
    } else {
      RoleMatters(E(t.init), InitOf(t.name, t.loc), c, fns);
    }
  }

  lemma BlockAll(t: Stmt, c: Context, fns: Rungs)
    requires t.Sync?
    ensures Reports(S(t), Plain, c, fns) == When(InferStmt(t.body, fns) == Suspends, BlockSuspends, NOWHERE)
      + Reports(S(t.body), Plain, Context(true, SyncBlock), fns)
  {
    hide Children, Reports, When, InferStmt;
    OnlyChild(S(t));
    Reports1(S(t), Plain, S(t.body), c, fns);
  }

  lemma ConcurrentAll(t: Stmt, c: Context, fns: Rungs)
    requires t.Concurrent?
    ensures Reports(S(t), Plain, c, fns)
      == When(c.inSync, ConcurrentInside(c.around), NOWHERE) + Reports(S(t.body), Plain, c, fns)
  {
    hide Children, Reports, When;
    OnlyChild(S(t));
    Reports1(S(t), Plain, S(t.body), c, fns);
  }

  // ---------------------------------------------------------------- silence is acceptance

  predicate RoleOk(n: Node, role: Role, fns: Rungs)
  {
    role.MethodOf? && IsComparison(role.name) ==> Infer(n, fns) != Suspends
  }

  ghost predicate InnerClean(n: Node, ns: seq<Node>, inSync: bool, fns: Rungs)
  {
    forall i :: 0 <= i < |ns| ==> RoleOk(ns[i], RoleOf(n, i), fns) && Clean(ns[i], inSync, fns)
  }

  lemma StructChildren(t: Stmt)
    requires t.Struct?
    ensures Children(S(t)) == MethodNodes(t.methods)
  {
    assert Parts(S(t)) == [];
    hide Parts;
  }

  lemma MethodRole(t: Stmt, i: nat, fns: Rungs)
    requires t.Struct? && i < |t.methods|
    ensures RoleOk(S(t.methods[i].body), RoleOf(S(t), i), fns) <==> MethodOk(t.methods[i], fns)
  {
    hide InferStmt;
  }

  // What the node itself is to be accepted for.
  lemma OwnSilent(n: Node, role: Role, c: Context, fns: Rungs)
    requires !(n.S? && n.stmt.Struct?)
    ensures OwnReports(n, role, c, fns) == [] <==> LocalOk(n, c.inSync, fns)
  {
    hide InferExpr, InferStmt, CalleeName, CalleeLocation, ComparatorRung;
  }

  lemma NoRole(n: Node, m: Node, i: nat, fns: Rungs)
    requires !(n.S? && n.stmt.Struct?)
    ensures RoleOk(m, RoleOf(n, i), fns)
  {
    hide Infer;
  }

  lemma StructOwn(n: Node, role: Role, c: Context, fns: Rungs)
    requires n.S? && n.stmt.Struct?
    ensures OwnReports(n, role, c, fns) == []
    ensures LocalOk(n, c.inSync, fns) <==> forall i :: 0 <= i < |n.stmt.methods| ==> MethodOk(n.stmt.methods[i], fns)
  {
    hide MethodOk;
  }

  // A node is clean when nothing is to be said about itself and the roles and insides of what it contains.
  lemma CleanByRoles(n: Node, role: Role, c: Context, fns: Rungs)
    ensures Clean(n, c.inSync, fns) <==>
      OwnReports(n, role, c, fns) == [] && InnerClean(n, Children(n), Inside(n, role, c).inSync, fns)
  {
    hide Clean, Children, RoleOf, RoleOk, OwnReports, LocalOk, MethodOk;
    CleanUnfold(n, c.inSync, fns);
    var ns := Children(n);
    if n.S? && n.stmt.Struct? {
      StructChildren(n.stmt);
      StructOwn(n, role, c, fns);
      forall i | 0 <= i < |ns| ensures RoleOk(ns[i], RoleOf(n, i), fns) <==> MethodOk(n.stmt.methods[i], fns) {
        MethodRole(n.stmt, i, fns);
      }
    } else {
      OwnSilent(n, role, c, fns);
      forall i | 0 <= i < |ns| ensures RoleOk(ns[i], RoleOf(n, i), fns) {
        NoRole(n, ns[i], i, fns);
      }
    }
  }

  lemma NodeSilent(n: Node, role: Role, c: Context, fns: Rungs)
    requires forall i :: 0 <= i < |Children(n)| ==>
      (Reports(Children(n)[i], RoleOf(n, i), Inside(n, role, c), fns) == [] <==>
        RoleOk(Children(n)[i], RoleOf(n, i), fns) && Clean(Children(n)[i], Inside(n, role, c).inSync, fns))
    ensures Reports(n, role, c, fns) == [] <==> RoleOk(n, role, fns) && Clean(n, c.inSync, fns)
  {
    hide Clean, Children, RoleOf, Reports, OwnReports, Inside, Infer, Flatten;
    ReportsUnfold(n, role, c, fns);
    FlattenSilent(Within(n, Children(n), Inside(n, role, c), fns));
    CleanByRoles(n, role, c, fns);
  }

  // Nothing is reported exactly when everything is clean.
  lemma {:induction false} ExprSilent(e: Expr, role: Role, c: Context, fns: Rungs)
    ensures Reports(E(e), role, c, fns) == [] <==> RoleOk(E(e), role, fns) && Clean(E(e), c.inSync, fns)
    decreases e
  {
    hide Clean, Children, RoleOf, RoleOk, Reports, Inside;
    var n := E(e);
    forall i | 0 <= i < |Children(n)|
      ensures Reports(Children(n)[i], RoleOf(n, i), Inside(n, role, c), fns) == [] <==>
        RoleOk(Children(n)[i], RoleOf(n, i), fns) && Clean(Children(n)[i], Inside(n, role, c).inSync, fns) {
      ExprPartSmaller(e, i);
      match Children(n)[i]
      case E(x) => ExprSilent(x, RoleOf(n, i), Inside(n, role, c), fns);
      case S(t) => StmtSilent(t, RoleOf(n, i), Inside(n, role, c), fns);
    }
    NodeSilent(n, role, c, fns);
  }

  lemma {:induction false} StmtSilent(t: Stmt, role: Role, c: Context, fns: Rungs)
    ensures Reports(S(t), role, c, fns) == [] <==> RoleOk(S(t), role, fns) && Clean(S(t), c.inSync, fns)
    decreases t
  {
    hide Clean, Children, RoleOf, RoleOk, Reports, Inside;
    var n := S(t);
    forall i | 0 <= i < |Children(n)|
      ensures Reports(Children(n)[i], RoleOf(n, i), Inside(n, role, c), fns) == [] <==>
        RoleOk(Children(n)[i], RoleOf(n, i), fns) && Clean(Children(n)[i], Inside(n, role, c).inSync, fns) {
      StmtPartSmaller(t, i);
      match Children(n)[i]
      case E(x) => ExprSilent(x, RoleOf(n, i), Inside(n, role, c), fns);
      case S(u) => StmtSilent(u, RoleOf(n, i), Inside(n, role, c), fns);
    }
    NodeSilent(n, role, c, fns);
  }

  // Clean, by the shape of what is inside: one, two or three nodes, or a list.
  lemma LeafClean(n: Node, inSync: bool, fns: Rungs)
    requires Children(n) == []
    ensures Clean(n, inSync, fns) <==> LocalOk(n, inSync, fns)
  {
    hide Clean, LocalOk;
    CleanUnfold(n, inSync, fns);
  }

  lemma Clean1(n: Node, a: Node, inSync: bool, fns: Rungs)
    requires Children(n) == [a]
    ensures Clean(n, inSync, fns) <==> LocalOk(n, inSync, fns) && Clean(a, inSync || EntersSync(n), fns)
  {
    hide Clean, LocalOk;
    CleanUnfold(n, inSync, fns);
    CleanOne(a, inSync || EntersSync(n), fns);
  }

  lemma Clean2(n: Node, a: Node, b: Node, inSync: bool, fns: Rungs)
    requires Children(n) == [a, b] && !EntersSync(n)
    ensures Clean(n, inSync, fns) <==> LocalOk(n, inSync, fns) && Clean(a, inSync, fns) && Clean(b, inSync, fns)
  {
    hide Clean, LocalOk;
    CleanUnfold(n, inSync, fns);
    CleanTwo(a, b, inSync, fns);
  }

  predicate HasOneInner(e: Expr)
  {
    e.Assign? || e.Unary? || e.Prefix? || e.Postfix? || e.TypeCast? || e.New? || e.Get? || e.Spawn?
  }

  lemma {:induction false} CasesAppend(a: seq<SwitchCase>, b: seq<SwitchCase>)
    ensures CaseNodes(a + b) == CaseNodes(a) + CaseNodes(b)
    decreases |a|
  {
    if a == [] {
      assert a + b == b;
    } else {
      assert (a + b)[0] == a[0] && (a + b)[1..] == a[1..] + b;
      CasesAppend(a[1..], b);
    }
  }

  lemma AllSilent(stmts: seq<Stmt>, fns: Rungs)
    ensures AllReports(StmtNodes(stmts), Context(false, Nowhere), fns) == [] <==> Accepted(stmts, fns)
  {
    hide Clean, Reports, Flatten;
    var c := Context(false, Nowhere);
    FlattenSilent(Each(StmtNodes(stmts), c, fns));
    forall i | 0 <= i < |stmts| ensures Reports(S(stmts[i]), Plain, c, fns) == [] <==> Clean(S(stmts[i]), false, fns) {
      StmtSilent(stmts[i], Plain, c, fns);
    }
  }

  // ---------------------------------------------------------------- the checker

  lemma AllNone(c: Context, fns: Rungs)
    ensures AllReports([], c, fns) == [] && CaseNodes([]) == []
    ensures forall ns: seq<Node> :: ns[..0] == []
  {
    FlattenOne([]);
  }

  lemma AllNext(ns: seq<Node>, i: nat, c: Context, fns: Rungs)
    requires i < |ns|
    ensures AllReports(ns[..i + 1], c, fns) == AllReports(ns[..i], c, fns) + Reports(ns[i], Plain, c, fns)
  {
    hide Reports, AllReports;
    assert ns[..i + 1] == ns[..i] + [ns[i]];
    AllConcat(ns[..i], [ns[i]], c, fns);
    AllOne(ns[i], c, fns);
  }

  lemma CaseNext(cs: seq<SwitchCase>, i: nat, c: Context, fns: Rungs)
    requires i < |cs|
    ensures AllReports(CaseNodes(cs[..i + 1]), c, fns) == AllReports(CaseNodes(cs[..i]), c, fns)
      + AllReports(ExprNodes(cs[i].values), c, fns) + Reports(S(cs[i].body), Plain, c, fns)
  {
    assert cs[..i + 1] == cs[..i] + [cs[i]];
    CasesAppend(cs[..i], [cs[i]]);
    var vs, b := ExprNodes(cs[i].values), [S(cs[i].body)];
    assert CaseNodes([cs[i]]) == vs + b by {
      assert [cs[i]][1..] == [] && CaseNodes([]) == [];
      assert vs + b + [] == vs + b;
    }
    hide Reports, AllReports, CaseNodes;
    AllConcat(CaseNodes(cs[..i]), vs + b, c, fns);
    AllConcat(vs, b, c, fns);
    AllOne(b[0], c, fns);
  }

  lemma FlattenNext(ls: seq<seq<EffectError>>, i: nat)
    requires i < |ls|
    ensures Flatten(ls[..i + 1]) == Flatten(ls[..i]) + ls[i]
  {
    var front := ls[..i + 1];
    assert front[..|front| - 1] == ls[..i];
  }

  // Methods: each body's reports, behind what is reported about it as a comparison.
  lemma StructReports(t: Stmt, c: Context, fns: Rungs)
    requires t.Struct?
    ensures Reports(S(t), Plain, c, fns) == Flatten(Within(S(t), MethodNodes(t.methods), c, fns))
  {
    hide Reports, Children, Flatten, RoleOf;
    ReportsUnfold(S(t), Plain, c, fns);
    StructChildren(t);
  }

  lemma MethodReports(t: Stmt, i: nat, c: Context, fns: Rungs)
    requires t.Struct? && i < |t.methods|
    ensures
      var m := t.methods[i];
      Reports(S(m.body), RoleOf(S(t), i), c, fns)
        == RoleReports(S(m.body), MethodOf(t.name, m.name, t.loc), fns) + Reports(S(m.body), Plain, c, fns)
  {
    hide Reports, RoleReports;
    RoleMatters(S(t.methods[i].body), RoleOf(S(t), i), c, fns);
  }

  class SyncChecker {
    const fe: FunctionEffects
    var errors: seq<EffectError>
    var inSync: bool
    var around: Surrounding

    constructor (fe: FunctionEffects)
      ensures this.fe == fe && errors == [] && Here() == Context(false, Nowhere)
    {
      this.fe := fe;
      errors, inSync, around := [], false, Nowhere;
    }

    function Here(): Context
      reads this
    {
      Context(inSync, around)
    }

    method Report(fault: Fault, loc: Location)
      modifies this`errors
      ensures errors == old(errors) + [EffectError(fault, loc)]
    {
      errors := errors + [EffectError(fault, loc)];
    }

    // Everything below appends exactly the reports about what it is given, and puts the context back on
    // every way out.
    method CheckExprs(es: seq<Expr>)
      modifies this`errors, this`inSync, this`around
      ensures Here() == old(Here()) && errors == old(errors) + AllReports(ExprNodes(es), Here(), fe.functions)
      decreases es, 0
    {
      hide Reports, AllReports;
      ghost var ns := ExprNodes(es);
      AllNone(Here(), fe.functions);
      for i := 0 to |es|
        invariant Here() == old(Here()) && errors == old(errors) + AllReports(ns[..i], Here(), fe.functions)
      {
        AllNext(ns, i, Here(), fe.functions);
        CheckExpr(es[i]);
      }
      assert ns[..|es|] == ns;
    }

    method CheckPairs(ps: seq<(string, Expr)>)
      modifies this`errors, this`inSync, this`around
      ensures Here() == old(Here()) && errors == old(errors) + AllReports(PairNodes(ps), Here(), fe.functions)
      decreases ps, 0
    {
      hide Reports, AllReports;
      ghost var ns := PairNodes(ps);
      AllNone(Here(), fe.functions);
      for i := 0 to |ps|
        invariant Here() == old(Here()) && errors == old(errors) + AllReports(ns[..i], Here(), fe.functions)
      {
        assert ps decreases to ps[i];
        AllNext(ns, i, Here(), fe.functions);
        CheckExpr(ps[i].1);
      }
      assert ns[..|ps|] == ns;
    }

    method CheckStmts(ss: seq<Stmt>)
      modifies this`errors, this`inSync, this`around
      ensures Here() == old(Here()) && errors == old(errors) + AllReports(StmtNodes(ss), Here(), fe.functions)
      decreases ss, 0
    {
      hide Reports, AllReports;
      ghost var ns := StmtNodes(ss);
      AllNone(Here(), fe.functions);
      for i := 0 to |ss|
        invariant Here() == old(Here()) && errors == old(errors) + AllReports(ns[..i], Here(), fe.functions)
      {
        AllNext(ns, i, Here(), fe.functions);
        CheckStmt(ss[i]);
      }
      assert ns[..|ss|] == ns;
    }

    method CheckOpt(s: Option<Stmt>)
      modifies this`errors, this`inSync, this`around
      ensures Here() == old(Here()) && errors == old(errors) + AllReports(OptNodes(s), Here(), fe.functions)
      decreases s, 0
    {
      hide Reports, AllReports;
      AllNone(Here(), fe.functions);
      if s.Some? {
        AllOne(S(s.value), Here(), fe.functions);
        CheckStmt(s.value);
      }
    }

    method CheckCases(cs: seq<SwitchCase>)
      modifies this`errors, this`inSync, this`around
      ensures Here() == old(Here()) && errors == old(errors) + AllReports(CaseNodes(cs), Here(), fe.functions)
      decreases cs, 0
    {
      hide Reports, AllReports;
      AllNone(Here(), fe.functions);
      assert cs[..0] == [];
      for i := 0 to |cs|
        invariant Here() == old(Here())
        invariant errors == old(errors) + AllReports(CaseNodes(cs[..i]), Here(), fe.functions)
      {
        assert cs decreases to cs[i];
        CaseNext(cs, i, Here(), fe.functions);
        CheckExprs(cs[i].values);
        CheckStmt(cs[i].body);
      }
      assert cs[..|cs|] == cs;
    }

    // A sync context: its body must not suspend, and is checked as synchronous.
    method CheckSyncBody(body: Stmt, fault: Fault, loc: Location, within: Surrounding)
      modifies this`errors, this`inSync, this`around
      ensures Here() == old(Here())
      ensures errors == old(errors) + When(InferStmt(body, fe.functions) == Suspends, fault, loc)
        + Reports(S(body), Plain, Context(true, within), fe.functions)
      decreases body, 2
    {
      hide Reports, InferStmt;
      var prevSync, prevAround := inSync, around;
      inSync := true;
      around := within;
      if InferStmt(body, fe.functions) == Suspends {
        Report(fault, loc);
      }
      CheckStmt(body);
      inSync := prevSync;
      around := prevAround;
    }

    method CheckMethods(t: Stmt)
      requires t.Struct?
      modifies this`errors, this`inSync, this`around
      ensures Here() == old(Here()) && errors == old(errors) + Reports(S(t), Plain, Here(), fe.functions)
      decreases t.methods, 0
    {
      hide Reports, RoleReports, Flatten, Children, RoleOf;
      ghost var n, ns, fns := S(t), MethodNodes(t.methods), fe.functions;
      ghost var ls := Within(n, ns, Here(), fns);
      StructReports(t, Here(), fns);
      FlattenOne([]);
      assert ls[..0] == [];
      for i := 0 to |t.methods|
        invariant Here() == old(Here()) && errors == old(errors) + Flatten(ls[..i])
      {
        var m := t.methods[i];
        assert t.methods decreases to m;
        MethodReports(t, i, Here(), fns);
        FlattenNext(ls, i);
        CheckComparison(t.name, m, t.loc);
        CheckStmt(m.body);
      }
      assert ls[..|ls|] == ls;
    }

    method CheckComparison(struct: string, m: Method, loc: Location)
      modifies this`errors
      ensures errors == old(errors) + RoleReports(S(m.body), MethodOf(struct, m.name, loc), fe.functions)
    {
      hide InferStmt, IsComparison;
      if IsComparison(m.name) {
        if InferStmt(m.body, fe.functions) == Suspends {
          Report(ComparisonSuspends(struct, m.name), loc);
        }
      }
    }

    method CheckStmt(t: Stmt)
      modifies this`errors, this`inSync, this`around
      ensures Here() == old(Here()) && errors == old(errors) + Reports(S(t), Plain, Here(), fe.functions)
      decreases t, 1
    {
      hide Reports;
      if t.VarDecl? || t.Sync? || t.Concurrent? {
        CheckContext(t);
      } else if t.Block? || t.If? || t.Try? || t.Switch? || t.Struct? {
        CheckCompound(t);
      } else {
        CheckSimple(t);
      }
    }

    // The statements that have to do with the context.
    method CheckContext(t: Stmt)
      requires t.VarDecl? || t.Sync? || t.Concurrent?
      modifies this`errors, this`inSync, this`around
      ensures Here() == old(Here()) && errors == old(errors) + Reports(S(t), Plain, Here(), fe.functions)
      decreases t, 0
    {
      hide Reports, InferExpr, InferStmt, OwnReports, Inside, RoleOf, Children;
      ghost var fns, c := fe.functions, Here();
      match t {
        case VarDecl(name, _, init, loc) =>
          DeclarationAll(t, c, fns);
          if init.Function? && init.isSync {
            CheckSyncBody(init.body, MarkedSuspends(name), loc, MarkedFunction(name));
          } else {
            CheckExpr(init);
          }
        case Sync(body) =>
          BlockAll(t, c, fns);
          CheckSyncBody(body, BlockSuspends, NOWHERE, SyncBlock);
        case Concurrent(body) =>
          ConcurrentAll(t, c, fns);
          if inSync {
            Report(ConcurrentInside(around), NOWHERE);
          }
          CheckStmt(body);
      }
    }

    // The statements with at most three parts.
    method CheckSimple(t: Stmt)
      requires !t.VarDecl? && !t.Sync? && !t.Concurrent? && !t.Block? && !t.If? && !t.Try? && !t.Switch? && !t.Struct?
      modifies this`errors, this`inSync, this`around
      ensures Here() == old(Here()) && errors == old(errors) + Reports(S(t), Plain, Here(), fe.functions)
      decreases t, 0
    {
      hide Reports, OwnReports, Inside, RoleOf;
      ghost var fns, c := fe.functions, Here();
      match t {
        case ExprStmt(e) => Quiet1(S(t), E(e), c, fns); CheckExpr(e);
        case Print(e) => Quiet1(S(t), E(e), c, fns); CheckExpr(e);
        case Throw(e) => Quiet1(S(t), E(e), c, fns); CheckExpr(e);
        case Export(inner) => Quiet1(S(t), S(inner), c, fns); CheckStmt(inner);
        case Return(r, _) =>
          if r.Some? {
            Quiet1(S(t), E(r.value), c, fns);
            CheckExpr(r.value);
          } else {
            Quiet0(S(t), c, fns);
          }
        case While(x, b) => Quiet2(S(t), E(x), S(b), c, fns, errors); CheckExpr(x); CheckStmt(b);
        case ForIn(_, iter, b) => Quiet2(S(t), E(iter), S(b), c, fns, errors); CheckExpr(iter); CheckStmt(b);
        case For(_, start, end, b) =>
          Quiet3(S(t), E(start), E(end), S(b), c, fns, errors);
          CheckExpr(start); CheckExpr(end); CheckStmt(b);
        case _ => Quiet0(S(t), c, fns);
      }
    }

    // The statements with lists of parts.
    method CheckCompound(t: Stmt)
      requires t.Block? || t.If? || t.Try? || t.Switch? || t.Struct?
      modifies this`errors, this`inSync, this`around
      ensures Here() == old(Here()) && errors == old(errors) + Reports(S(t), Plain, Here(), fe.functions)
      decreases t, 0
    {
      hide Reports, AllReports, CaseNodes, OptNodes, OwnReports, Inside, RoleOf;
      ghost var fns, c := fe.functions, Here();
      AllNone(c, fns);
      match t {
        case Block(ss) =>
          QuietParts(S(t), StmtNodes(ss), [], [], c, fns, errors);
          CheckStmts(ss);
        case If(x, a, f) =>
          QuietParts(S(t), [E(x)], [S(a)], OptNodes(f), c, fns, errors);
          AllOne(E(x), c, fns);
          AllOne(S(a), c, fns);
          CheckExpr(x); CheckStmt(a); CheckOpt(f);
        case Try(a, h, f) =>
          QuietParts(S(t), [S(a)], CatchNodes(h), OptNodes(f), c, fns, errors);
          AllOne(S(a), c, fns);
          CheckStmt(a);
          if h.Some? {
            AllOne(S(h.value.1), c, fns);
            CheckStmt(h.value.1);
          }
          CheckOpt(f);
        case Switch(e, cs, d) =>
          QuietParts(S(t), [E(e)], CaseNodes(cs), OptNodes(d), c, fns, errors);
          AllOne(E(e), c, fns);
          CheckExpr(e);
          CheckCases(cs);
          CheckOpt(d);
        case Struct(_, _, ms, _) => CheckMethods(t);
        case _ =>
      }
    }

    // What a call adds: a call that suspends in a synchronous context, a comparator that suspends.
    method CheckCall(callee: Expr, args: seq<Expr>)
      modifies this`errors
      ensures errors == old(errors) + CallReports(callee, args, Here(), fe.functions)
    {
      hide InferExpr, InferStmt, CalleeName, CalleeLocation;
      if inSync {
        if InferExpr(Call(callee, args), fe.functions) == Suspends {
          Report(CallInside(CalleeName(callee), around), CalleeLocation(callee));
        }
      }
      if callee.Get? && callee.prop == "sort" && args != [] {
        var arg := args[0];
        if ComparatorRung(arg, fe.functions) == Suspends {
          Report(SortSuspends, CalleeLocation(arg));
        }
      }
    }

    method CheckExpr(e: Expr)
      modifies this`errors, this`inSync, this`around
      ensures Here() == old(Here()) && errors == old(errors) + Reports(E(e), Plain, Here(), fe.functions)
      decreases e, 1
    {
      hide Reports, AllReports, InferExpr, InferStmt, CallReports, OwnReports, Inside, RoleOf, Children;
      ghost var fns, c := fe.functions, Here();
      if e.Call? {
        CallAll(e, c, fns, errors);
        CheckCall(e.callee, e.args);
        CheckExpr(e.callee);
        CheckExprs(e.args);
      } else if e.Function? {
        FunctionAll(e, Plain, c, fns);
        if e.isSync {
          CheckSyncBody(e.body, ClosureSuspends, NOWHERE, MarkedClosure);
        } else {
          CheckStmt(e.body);
        }
      } else if e.Await? {
        AwaitAll(e, c, fns);
        if inSync {
          Report(AwaitInside(around), NOWHERE);
        }
        CheckExpr(e.inner);
      } else if HasOneInner(e) {
        CheckInner(e);
      } else {
        CheckWideExpr(e);
      }
    }

    // The expressions with one part that add nothing to report.
    method CheckInner(e: Expr)
      requires HasOneInner(e)
      modifies this`errors, this`inSync, this`around
      ensures Here() == old(Here()) && errors == old(errors) + Reports(E(e), Plain, Here(), fe.functions)
      decreases e, 0
    {
      hide Reports, OwnReports, Inside, RoleOf;
      ghost var fns, c := fe.functions, Here();
      match e {
        case Assign(_, x, _) => Quiet1(E(e), E(x), c, fns); CheckExpr(x);
        case Unary(_, x) => Quiet1(E(e), E(x), c, fns); CheckExpr(x);
        case Prefix(_, x) => Quiet1(E(e), E(x), c, fns); CheckExpr(x);
        case Postfix(_, x) => Quiet1(E(e), E(x), c, fns); CheckExpr(x);
        case TypeCast(x, _, _) => Quiet1(E(e), E(x), c, fns); CheckExpr(x);
        case New(x) => Quiet1(E(e), E(x), c, fns); CheckExpr(x);
        case Get(x, _) => Quiet1(E(e), E(x), c, fns); CheckExpr(x);
        case Spawn(x) => Quiet1(E(e), E(x), c, fns); CheckExpr(x);
      }
    }

    method CheckWideExpr(e: Expr)
      requires !HasOneInner(e) && !e.Call? && !e.Function? && !e.Await?
      modifies this`errors, this`inSync, this`around
      ensures Here() == old(Here()) && errors == old(errors) + Reports(E(e), Plain, Here(), fe.functions)
      decreases e, 0
    {
      hide Reports, AllReports, OwnReports, Inside, RoleOf;
      ghost var fns, c := fe.functions, Here();
      AllNone(c, fns);
      match e {
        case Binary(l, _, r) => Quiet2(E(e), E(l), E(r), c, fns, errors); CheckExpr(l); CheckExpr(r);
        case Logical(l, _, r) => Quiet2(E(e), E(l), E(r), c, fns, errors); CheckExpr(l); CheckExpr(r);
        case Set(l, _, r) => Quiet2(E(e), E(l), E(r), c, fns, errors); CheckExpr(l); CheckExpr(r);
        case GetIndex(l, r) => Quiet2(E(e), E(l), E(r), c, fns, errors); CheckExpr(l); CheckExpr(r);
        case Ternary(x, y, z) =>
          Quiet3(E(e), E(x), E(y), E(z), c, fns, errors);
          CheckExpr(x);
          CheckExpr(y);
          CheckExpr(z);
        case SetIndex(x, y, z) =>
          Quiet3(E(e), E(x), E(y), E(z), c, fns, errors);
          CheckExpr(x);
          CheckExpr(y);
          CheckExpr(z);
        case Array(es) => QuietParts(E(e), ExprNodes(es), [], [], c, fns, errors); CheckExprs(es);
        case Object(ps) => QuietParts(E(e), PairNodes(ps), [], [], c, fns, errors); CheckPairs(ps);
        case StructInst(_, ps, _) => QuietParts(E(e), PairNodes(ps), [], [], c, fns, errors); CheckPairs(ps);
        case _ => Quiet0(E(e), c, fns);
      }
    }
  }

  // Reports all that there is to report, in the order of the program, and nothing exactly when every
  // statement is clean.
  method CheckSyncConstraints(stmts: seq<Stmt>, fe: FunctionEffects) returns (errors: seq<EffectError>)
    ensures errors == AllReports(StmtNodes(stmts), Context(false, Nowhere), fe.functions)
    ensures errors == [] <==> Accepted(stmts, fe.functions)
  {
    hide Clean, Reports, AllReports;
    var checker := new SyncChecker(fe);
    checker.CheckStmts(stmts);
    errors := checker.errors;
    AllSilent(stmts, fe.functions);
  }
}
