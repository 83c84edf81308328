/** What the silence of the @sync checker guarantees (crates/eronom-frontend/src/sync.rs and
    effects.rs): code in a synchronous context never gets to a suspending primitive, an await or a
    concurrent block.  Evaluation goes from place to place in the program; a place is the way down to
    it, so that it says what the names mean there. */
module Suspension {
  import opened Options
  import opened Ast
  import opened Effects
  import opened EffectChains
  import opened Checks = Sync

  // ---------------------------------------------------------------- places

  // A way down from a statement of the program to a node in it.
  ghost predicate Inside(stmts: seq<Stmt>, way: seq<Node>)
  {
    && way != [] && way[0].S? && way[0].stmt in stmts
    && forall i :: 0 <= i < |way| - 1 ==> way[i + 1] in Children(way[i])
  }

  function Last(way: seq<Node>): Node
    requires way != []
  {
    way[|way| - 1]
  }

  // ---------------------------------------------------------------- what a name means at a place

  // What a statement declares: an export and a sync block open no scope of their own.
  function Declared(s: Stmt): Stmt
  {
    match s case Export(inner) => Declared(inner) case Sync(inner) => Declared(inner) case _ => s
  }

  predicate Declares(s: Stmt, name: string)
  {
    match Declared(s)
    case VarDecl(n, _, _, _) => n == name
    case Struct(n, _, _, _) => n == name
    case Enum(n, _, _) => n == name
    case Import(names, _) => name in names
    case _ => false
  }

  predicate DeclaresFn(s: Stmt, name: string)
  {
    var d := Declared(s); d.VarDecl? && d.name == name && d.init.Function?
  }

  // The way from the statement to the body of the function it declares.
  function ToBody(s: Stmt): seq<Node>
  {
    match s
    case Export(inner) => [S(s)] + ToBody(inner)
    case Sync(inner) => [S(s)] + ToBody(inner)
    case VarDecl(_, _, init, _) => if init.Function? then [S(s), E(init), S(init.body)] else [S(s)]
    case _ => [S(s)]
  }

  // The statements whose declarations hold in the whole of a node.
  function ScopeOf(n: Node): seq<Stmt>
  {
    match n
    case S(Block(ss)) => ss
    case S(Switch(_, cases, d)) =>
      seq(|cases|, i requires 0 <= i < |cases| => cases[i].body) + (if d.Some? then [d.value] else [])
    case _ => []
  }

  // Parameters, loop variables and caught errors.
  predicate BindsOther(n: Node, name: string)
  {
    match n
    case E(Function(params, _, _, _)) => name in params
    case S(For(v, _, _, _)) => v == name
    case S(ForIn(v, _, _)) => v == name
    case S(Try(_, c, _)) => c.Some? && c.value.0 == name
    case S(Struct(_, _, methods, _)) => exists i :: 0 <= i < |methods| && name in methods[i].params
    case _ => false
  }

  predicate DeclaredIn(ss: seq<Stmt>, name: string)
  {
    exists i :: 0 <= i < |ss| && Declares(ss[i], name)
  }

  predicate OnlyFunctions(ss: seq<Stmt>, name: string)
  {
    forall i :: 0 <= i < |ss| && Declares(ss[i], name) ==> DeclaresFn(ss[i], name)
  }

  predicate Binds(n: Node, name: string)
  {
    BindsOther(n, name) || DeclaredIn(ScopeOf(n), name)
  }

  // The innermost node on the way that binds the name.
  function Binder(way: seq<Node>, name: string): (k: Option<nat>)
    ensures k.Some? ==> k.value < |way| && Binds(way[k.value], name)
    ensures forall i :: (if k.Some? then k.value else -1) < i < |way| ==> !Binds(way[i], name)
  {
    if way == [] then None
    else if Binds(Last(way), name) then Some(|way| - 1)
    else Binder(way[..|way| - 1], name)
  }

  // Is the name assigned to anywhere in the node?
  ghost predicate AssignsExpr(e: Expr, name: string)
    decreases e
  {
    || (e.Assign? && e.target == name)
    || exists i :: 0 <= i < |Children(E(e))| &&
         (ExprPartSmaller(e, i);
          match Children(E(e))[i] case E(x) => AssignsExpr(x, name) case S(t) => AssignsStmt(t, name))
  }

  ghost predicate AssignsStmt(t: Stmt, name: string)
    decreases t
  {
    exists i :: 0 <= i < |Children(S(t))| &&
      (StmtPartSmaller(t, i);
       match Children(S(t))[i] case E(x) => AssignsExpr(x, name) case S(u) => AssignsStmt(u, name))
  }

  ghost predicate Assigns(n: Node, name: string)
  {
    match n case E(e) => AssignsExpr(e, name) case S(t) => AssignsStmt(t, name)
  }

  ghost predicate Reassigned(stmts: seq<Stmt>, name: string)
  {
    exists i :: 0 <= i < |stmts| && AssignsStmt(stmts[i], name)
  }

  // Functions are collected in blocks, sync and concurrent blocks and exports.
  predicate Gathers(n: Node)
  {
    n.S? && (n.stmt.Block? || n.stmt.Sync? || n.stmt.Concurrent? || n.stmt.Export?)
  }

  predicate AllGather(way: seq<Node>)
  {
    forall i :: 0 <= i < |way| ==> Gathers(way[i])
  }

  // What a name stands for: a collected function, one declared in the scope of a node on the way, a
  // primitive, or something that only evaluation knows.
  datatype Target = Collected | Local(at: nat) | Primitive | Unknown

  ghost function Resolve(stmts: seq<Stmt>, way: seq<Node>, name: string): (t: Target)
    ensures t.Local? ==> t.at < |way|
  {
    var b := Binder(way, name);
    if Reassigned(stmts, name) then Unknown
    else if b.None? then
      if !OnlyFunctions(stmts, name) then Unknown
      else if name in Names(Collect(stmts).fns) then Collected
      else if IsPrimitive(name) then Primitive
      else Unknown
    else if BindsOther(way[b.value], name) || !OnlyFunctions(ScopeOf(way[b.value]), name) then Unknown
    else if AllGather(way[..b.value + 1]) then Collected
    else Local(b.value)
  }

  // ---------------------------------------------------------------- evaluation

  predicate DeclarationAt(name: string, decl: Node, f: Node, body: Node)
  {
    && decl.S? && decl.stmt.VarDecl? && decl.stmt.name == name && decl.stmt.init.Function?
    && f == E(decl.stmt.init) && body == S(decl.stmt.init.body)
  }

  // The way leads to the body of a collected function of that name.
  ghost predicate CollectedAt(stmts: seq<Stmt>, name: string, way: seq<Node>)
  {
    && Inside(stmts, way) && 3 <= |way| && AllGather(way[..|way| - 3])
    && DeclarationAt(name, way[|way| - 3], way[|way| - 2], Last(way))
  }

  // From a call of the name to where it leads: something that only evaluation knows may be anywhere.
  ghost predicate Enters(stmts: seq<Stmt>, way: seq<Node>, name: string, way': seq<Node>)
  {
    match Resolve(stmts, way, name)
    case Collected => CollectedAt(stmts, name, way')
    case Local(k) =>
      exists i :: 0 <= i < |ScopeOf(way[k])| && DeclaresFn(ScopeOf(way[k])[i], name)
        && way' == way[..k + 1] + ToBody(ScopeOf(way[k])[i])
    case Primitive => false
    case Unknown => way' != []
  }

  // The node's parts are evaluated; which of them, in which order and how often is left open.
  ghost predicate StepsDown(way: seq<Node>, way': seq<Node>)
    requires way != []
  {
    way' != [] && way'[..|way'| - 1] == way && Last(way') in Parts(Last(way))
  }

  // A call leads into the function that it calls.
  ghost predicate StepsOver(stmts: seq<Stmt>, way: seq<Node>, way': seq<Node>)
    requires way != []
  {
    var n := Last(way);
    n.E? && n.expr.Call? &&
    match n.expr.callee
    case Variable(name, _) => Enters(stmts, way, name, way')
    case Function(_, body, _, _) => way' == way + [E(n.expr.callee), S(body)]
    case _ => way' != []
  }

  ghost predicate Steps(stmts: seq<Stmt>, way: seq<Node>, way': seq<Node>)
    requires way != []
  {
    StepsDown(way, way') || StepsOver(stmts, way, way')
  }

  // Not a call, or the call of a collected function, of a primitive, or of a function where it is
  // written.
  ghost predicate Known(stmts: seq<Stmt>, way: seq<Node>)
    requires way != []
  {
    var n := Last(way);
    n.E? && n.expr.Call? ==>
      match n.expr.callee
      case Variable(name, _) => var t := Resolve(stmts, way, name); t.Collected? || t.Primitive?
      case Function(_, _, _, _) => true
      case _ => false
  }

  // Everything in the program is known.
  ghost predicate FirstOrder(stmts: seq<Stmt>)
  {
    forall way :: Inside(stmts, way) ==> Known(stmts, way)
  }

  // The places that evaluation goes through from the first one on.
  ghost predicate Evaluation(stmts: seq<Stmt>, path: seq<seq<Node>>)
  {
    && path != [] && (forall i :: 0 <= i < |path| ==> path[i] != [])
    && forall i :: 0 <= i < |path| - 1 ==> Steps(stmts, path[i], path[i + 1])
  }

  // Awaiting, a concurrent block, and calls of suspending primitives.
  ghost predicate IsSuspension(stmts: seq<Stmt>, way: seq<Node>)
    requires way != []
  {
    match Last(way)
    case E(Await(_)) => true
    case S(Concurrent(_)) => true
    case E(Call(Variable(name, _), _)) =>
      var t := Resolve(stmts, way, name); Parks(name) && (t.Primitive? || t.Unknown?)
    case E(Call(Get(obj, m), _)) => MethodParks(obj, m)
    case _ => false
  }

  // Can evaluation from here suspend?
  ghost predicate SuspendsFrom(stmts: seq<Stmt>, way: seq<Node>)
  {
    exists path :: Evaluation(stmts, path) && path[0] == way && IsSuspension(stmts, path[|path| - 1])
  }

  ghost predicate AllKnown(stmts: seq<Stmt>, path: seq<seq<Node>>)
  {
    forall i :: 0 <= i < |path| ==> path[i] != [] && Known(stmts, path[i])
  }

  // The code of a synchronous context: the body of a sync block or of a sync function.
  function SyncBody(n: Node): Stmt
    requires EntersSync(n)
  {
    match n case E(e) => e.body case S(t) => t.body
  }

  // Code that must not suspend: the body of a sync block or a sync function, that of a comparison
  // method of a struct, and the comparator that a sort is given, written there or by its name.
  ghost predicate SyncCode(stmts: seq<Stmt>, way: seq<Node>, start: seq<Node>)
    requires way != []
  {
    match Last(way)
    case E(Function(_, body, _, isSync)) => isSync && start == way + [S(body)]
    case S(Sync(body)) => start == way + [S(body)]
    case S(Struct(_, _, methods, _)) =>
      exists i :: 0 <= i < |methods| && methods[i].name in ["compare", "compareTo", "equals", "hashCode"]
        && start == way + [S(methods[i].body)]
    case E(Call(Get(_, "sort"), args)) =>
      && args != []
      && ((args[0].Function? && start == way + [E(args[0]), S(args[0].body)])
          || (args[0].Variable? && Resolve(stmts, way, args[0].name).Collected?
              && CollectedAt(stmts, args[0].name, start)))
    case _ => false
  }

  // No evaluation of such code of the program gets to a suspension.
  ghost predicate NothingSuspends(stmts: seq<Stmt>)
  {
    forall way, start :: Inside(stmts, way) && SyncCode(stmts, way, start) ==> !SuspendsFrom(stmts, start)
  }

  // ---------------------------------------------------------------- known steps stay below the rung

  lemma {:induction false} CollectedOf(ss: seq<Stmt>, s: Stmt, f: (string, Stmt))
    requires s in ss && f in CollectFns(s)
    ensures f in CollectFnsOf(ss)
    decreases |ss|
  {
    hide CollectFns;
    if s != ss[0] {
      CollectedOf(ss[1..], s, f);
    }
  }

  lemma GathersOn(s: Stmt, t: Stmt, f: (string, Stmt))
    requires Gathers(S(s)) && S(t) in Children(S(s)) && f in CollectFns(t)
    ensures f in CollectFns(s)
  {
    if s.Block? {
      assert t in s.stmts;
      CollectedOf(s.stmts, t, f);
    }
  }

  // What a way through gathering statements leads to is collected.
  lemma {:induction false} GatheredFn(way: seq<Node>, name: string)
    requires 3 <= |way| && way[0].S? && AllGather(way[..|way| - 3])
    requires forall i :: 0 <= i < |way| - 1 ==> way[i + 1] in Children(way[i])
    requires DeclarationAt(name, way[|way| - 3], way[|way| - 2], Last(way))
    ensures (name, Last(way).stmt) in CollectFns(way[0].stmt)
    decreases |way|
  {
    hide Children;
    if |way| > 3 {
      assert Gathers(way[..|way| - 3][0]);
      var rest := way[1..];
      forall i | 0 <= i < |rest| - 1 ensures rest[i + 1] in Children(rest[i]) {
        assert rest[i] == way[i + 1] && rest[i + 1] == way[i + 2];
      }
      forall i | 0 <= i < |rest| - 3 ensures Gathers(rest[i]) {
        assert rest[i] == way[..|way| - 3][i + 1];
      }
      assert rest[0].S? by {
        assert |way| > 4 ==> Gathers(way[..|way| - 3][1]);
      }
      GatheredFn(rest, name);
      GathersOn(way[0].stmt, rest[0].stmt, (name, Last(way).stmt));
    }
  }

  lemma {:induction false} MethodsOf(ss: seq<Stmt>, s: Stmt, f: (string, Stmt))
    requires s in ss && f in CollectMethods(s)
    ensures f in CollectMethodsOf(ss)
    decreases |ss|
  {
    hide CollectMethods;
    if s != ss[0] {
      MethodsOf(ss[1..], s, f);
    }
  }

  lemma GathersMethods(s: Stmt, t: Stmt, f: (string, Stmt))
    requires Gathers(S(s)) && S(t) in Children(S(s)) && f in CollectMethods(t)
    ensures f in CollectMethods(s)
  {
    if s.Block? {
      assert t in s.stmts;
      MethodsOf(s.stmts, t, f);
    }
  }

  // A method of a struct that gathering statements lead to is collected under the struct's name.
  lemma GatheredMethod(stmts: seq<Stmt>, way: seq<Node>, i: nat)
    requires Inside(stmts, way) && AllGather(way[..|way| - 1])
    requires Last(way).S? && Last(way).stmt.Struct? && i < |Last(way).stmt.methods|
    ensures
      var t := Last(way).stmt;
      (t.name + "." + t.methods[i].name, t.methods[i].body) in Collect(stmts).methods
  {
    var t := Last(way).stmt;
    var f := (t.name + "." + t.methods[i].name, t.methods[i].body);
    assert CollectMethods(t)[i] == f;
    hide CollectMethods, CollectMethodsOf, Children;
    var k := |way| - 1;
    while k > 0
      invariant 0 <= k < |way| && way[k].S? && f in CollectMethods(way[k].stmt)
      decreases k
    {
      assert Gathers(way[..|way| - 1][k - 1]);
      assert way[k] in Children(way[k - 1]);
      GathersMethods(way[k - 1].stmt, way[k].stmt, f);
      k := k - 1;
    }
    MethodsOf(stmts, way[0].stmt, f);
  }

  lemma CollectedBody(stmts: seq<Stmt>, name: string, way: seq<Node>) returns (i: nat)
    requires CollectedAt(stmts, name, way)
    ensures var fns := Collect(stmts).fns; i < |fns| && fns[i] == (name, Last(way).stmt) && Last(way).S?
  {
    hide CollectFns, CollectFnsOf, Children;
    GatheredFn(way, name);
    CollectedOf(stmts, way[0].stmt, (name, Last(way).stmt));
    i :| 0 <= i < |Collect(stmts).fns| && Collect(stmts).fns[i] == (name, Last(way).stmt);
  }

  lemma CalleeRung(callee: Expr, args: seq<Expr>, fns: Rungs)
    requires callee.Variable?
    ensures Le(RungOf(fns, callee.name), Infer(E(Call(callee, args)), fns))
  {
    var n := E(Call(callee, args));
    RungCovers(n, fns);
    assert Evaluated(n)[0] == E(callee);
    assert Infer(E(callee), fns) == RungOf(fns, callee.name);
  }

  lemma InferOfStmt(t: Stmt, fns: Rungs)
    ensures Infer(S(t), fns) == InferStmt(t, fns)
  {
    hide InferStmt;
  }

  lemma LiteralBody(e: Expr)
    requires e.Call? && e.callee.Function?
    ensures S(e.callee.body) in Evaluated(E(e))
  {
    assert Evaluated(E(e))[|Parts(E(e))|] == S(e.callee.body);
  }

  lemma CollectedNonempty(stmts: seq<Stmt>, name: string, way: seq<Node>)
    requires CollectedAt(stmts, name, way)
    ensures way != []
  {
  }

  // The rung of a node covers that of what it calls.
  lemma CallStepRung(stmts: seq<Stmt>, fe: FunctionEffects, way: seq<Node>, way': seq<Node>)
    requires way != [] && Solves(fe, Collect(stmts)) && StepsOver(stmts, way, way') && Known(stmts, way)
    ensures way' != [] && Le(Infer(Last(way'), fe.functions), Infer(Last(way), fe.functions))
  {
    hide Infer, Seeds, Collect, Resolve, CollectedAt;
    var e := Last(way).expr;
    match e.callee {
      case Function(_, body, _, _) =>
        assert Last(way') == S(body);
        assert S(body) in Evaluated(E(e)) by { LiteralBody(e); }
        RungCovers(E(e), fe.functions);
      case Variable(name, _) =>
        var i := CollectedBody(stmts, name, way');
        var fns := Collect(stmts).fns;
        assert CollectedAt(stmts, name, way');
        CollectedNonempty(stmts, name, way');
        assert Le(InferStmt(fns[i].1, fe.functions), RungOf(fe.functions, fns[i].0));
        CalleeRung(e.callee, e.args, fe.functions);
        InferOfStmt(fns[i].1, fe.functions);
    }
  }

  lemma StepRung(stmts: seq<Stmt>, fe: FunctionEffects, way: seq<Node>, way': seq<Node>)
    requires way != [] && Solves(fe, Collect(stmts)) && Steps(stmts, way, way') && Known(stmts, way)
    ensures way' != [] && Le(Infer(Last(way'), fe.functions), Infer(Last(way), fe.functions))
  {
    hide Infer, Parts, StepsOver, Solves, Collect, Known;
    if StepsDown(way, way') {
      RungCovers(Last(way), fe.functions);
    } else {
      CallStepRung(stmts, fe, way, way');
    }
  }

  lemma SuspensionRung(stmts: seq<Stmt>, fe: FunctionEffects, way: seq<Node>)
    requires way != [] && Solves(fe, Collect(stmts)) && IsSuspension(stmts, way)
    ensures Infer(Last(way), fe.functions) == Suspends
  {
    hide Infer, Evaluated, Seeds, Parks, Acts, MethodSuspends, MethodParks, Resolve, Collect;
    var n := Last(way);
    RungCovers(n, fe.functions);
    if n.E? && n.expr.Call? && n.expr.callee.Get? {
      OwnMentions(n.expr.callee.obj, n.expr.callee.prop);
    } else if n.E? && n.expr.Call? && n.expr.callee.Variable? {
      SeedsExact(n.expr.callee.name);
      CalleeRung(n.expr.callee, n.expr.args, fe.functions);
      assert Le(RungOf(Seeds(), n.expr.callee.name), RungOf(fe.functions, n.expr.callee.name));
    }
  }

  // The path without its first place.
  lemma EvaluationOn(stmts: seq<Stmt>, path: seq<seq<Node>>)
    requires Evaluation(stmts, path) && |path| > 1
    ensures Evaluation(stmts, path[1..]) && path[1..][0] == path[1] && path[1..][|path| - 2] == path[|path| - 1]
    ensures path[0] != [] && path[1] != [] && Steps(stmts, path[0], path[1])
  {
    hide Steps;
    var rest := path[1..];
    forall i | 0 <= i < |rest| - 1 ensures Steps(stmts, rest[i], rest[i + 1]) {
      assert rest[i] == path[i + 1] && rest[i + 1] == path[i + 2];
    }
  }

  // Evaluation that starts below the suspending rung and meets no unknown call never suspends.
  lemma {:induction false} NeverSuspends(stmts: seq<Stmt>, fe: FunctionEffects, path: seq<seq<Node>>)
    requires Solves(fe, Collect(stmts)) && Evaluation(stmts, path) && AllKnown(stmts, path)
    requires path[0] != [] && Infer(Last(path[0]), fe.functions) != Suspends
    ensures forall i :: 0 <= i < |path| ==> path[i] != [] && !IsSuspension(stmts, path[i])
    decreases |path|
  {
    hide Infer, Solves, Steps, IsSuspension, Known, Collect;
    if IsSuspension(stmts, path[0]) {
      SuspensionRung(stmts, fe, path[0]);
    }
    if |path| > 1 {
      EvaluationOn(stmts, path);
      StepRung(stmts, fe, path[0], path[1]);
      NeverSuspends(stmts, fe, path[1..]);
      forall i | 0 <= i < |path| ensures path[i] != [] && !IsSuspension(stmts, path[i]) {
        if i > 0 {
          assert path[i] == path[1..][i - 1];
        }
      }
    }
  }

  // ---------------------------------------------------------------- known steps stay in the program

  lemma WayOn(stmts: seq<Stmt>, way: seq<Node>, m: Node)
    requires Inside(stmts, way) && m in Children(way[|way| - 1])
    ensures Inside(stmts, way + [m])
  {
    hide Children;
    var w := way + [m];
    forall i | 0 <= i < |w| - 1 ensures w[i + 1] in Children(w[i]) {
      assert w[i] == way[i];
    }
  }

  lemma PartIsChild(n: Node, m: Node)
    requires m in Parts(n) || m in Bodies(n)
    ensures m in Children(n)
  {
    hide Parts, Bodies;
  }

  lemma LiteralParts(e: Expr)
    requires e.Call? && e.callee.Function?
    ensures E(e.callee) in Parts(E(e)) && S(e.callee.body) in Bodies(E(e.callee))
  {
    assert Parts(E(e))[0] == E(e.callee) && Bodies(E(e.callee))[0] == S(e.callee.body);
  }

  lemma NonemptyWay(stmts: seq<Stmt>, way: seq<Node>)
    requires Inside(stmts, way)
    ensures way != []
  {
  }

  lemma StepInside(stmts: seq<Stmt>, way: seq<Node>, way': seq<Node>)
    requires Inside(stmts, way) && Steps(stmts, way, way') && Known(stmts, way)
    ensures Inside(stmts, way')
  {
    hide Inside, Children, Parts, Bodies, Resolve;
    NonemptyWay(stmts, way);
    var n := Last(way);
    if StepsDown(way, way') {
      PartIsChild(n, Last(way'));
      WayOn(stmts, way, Last(way'));
      assert way' == way + [Last(way')];
    } else if n.expr.callee.Function? {
      var f, body := E(n.expr.callee), S(n.expr.callee.body);
      LiteralParts(n.expr);
      PartIsChild(n, f);
      PartIsChild(f, body);
      WayOn(stmts, way, f);
      WayOn(stmts, way + [f], body);
      assert way' == way + [f] + [body];
    }
  }

  lemma {:induction false} PathInside(stmts: seq<Stmt>, path: seq<seq<Node>>)
    requires FirstOrder(stmts) && Evaluation(stmts, path) && Inside(stmts, path[0])
    ensures AllKnown(stmts, path)
    decreases |path|
  {
    hide Inside, Steps, Known;
    assert Known(stmts, path[0]) by { NonemptyWay(stmts, path[0]); }
    if |path| > 1 {
      EvaluationOn(stmts, path);
      StepInside(stmts, path[0], path[1]);
      PathInside(stmts, path[1..]);
      forall i | 0 <= i < |path| ensures path[i] != [] && Known(stmts, path[i]) {
        if i > 0 {
          assert path[i] == path[1..][i - 1];
        }
      }
    }
  }

  lemma {:induction false} CleanDown(way: seq<Node>, inSync: bool, fns: Rungs) returns (inSync': bool)
    requires way != [] && Clean(way[0], inSync, fns)
    requires forall i :: 0 <= i < |way| - 1 ==> way[i + 1] in Children(way[i])
    ensures Clean(way[|way| - 1], inSync', fns)
    decreases |way|
  {
    hide Clean, Children, LocalOk;
    if |way| == 1 {
      inSync' := inSync;
    } else {
      CleanUnfold(way[0], inSync, fns);
      var k :| 0 <= k < |Children(way[0])| && Children(way[0])[k] == way[1];
      forall i | 0 <= i < |way[1..]| - 1 ensures way[1..][i + 1] in Children(way[1..][i]) {
        assert way[1..][i] == way[i + 1] && way[1..][i + 1] == way[i + 2];
      }
      inSync' := CleanDown(way[1..], inSync || EntersSync(way[0]), fns);
    }
  }

  // What the checker finds nothing to report about is below the suspending rung.
  lemma StartRung(stmts: seq<Stmt>, fe: FunctionEffects, way: seq<Node>, start: seq<Node>, inSync: bool)
    requires Solves(fe, Collect(stmts)) && way != [] && LocalOk(Last(way), inSync, fe.functions)
    requires SyncCode(stmts, way, start)
    ensures start != [] && Infer(Last(start), fe.functions) != Suspends
  {
    hide Infer, InferStmt, InferExpr, Seeds, Collect, Resolve, CollectedAt;
    var n := Last(way);
    if n.S? && n.stmt.Struct? {
      var i :| 0 <= i < |n.stmt.methods| && n.stmt.methods[i].name in ["compare", "compareTo", "equals", "hashCode"]
        && start == way + [S(n.stmt.methods[i].body)];
      assert MethodOk(n.stmt.methods[i], fe.functions);
      InferOfStmt(n.stmt.methods[i].body, fe.functions);
    } else if n.E? && n.expr.Call? {
      var arg := n.expr.args[0];
      if arg.Function? {
        InferOfStmt(arg.body, fe.functions);
      } else {
        var i := CollectedBody(stmts, arg.name, start);
        CollectedNonempty(stmts, arg.name, start);
        var fns := Collect(stmts).fns;
        assert Le(InferStmt(fns[i].1, fe.functions), RungOf(fe.functions, fns[i].0));
        InferOfStmt(fns[i].1, fe.functions);
      }
    } else {
      InferOfStmt(SyncBody(n), fe.functions);
    }
  }

  /** When the rungs solve the program and the checker has nothing to report, an evaluation of code
      that must not suspend, however deep in the program, can suspend only behind an unknown call. */
  lemma SyncSound(stmts: seq<Stmt>, fe: FunctionEffects, way: seq<Node>, path: seq<seq<Node>>)
    requires Solves(fe, Collect(stmts)) && Accepted(stmts, fe.functions)
    requires Inside(stmts, way) && Evaluation(stmts, path) && SyncCode(stmts, way, path[0]) && AllKnown(stmts, path)
    ensures forall i :: 0 <= i < |path| ==> path[i] != [] && !IsSuspension(stmts, path[i])
  {
    hide Clean, Children, Solves, IsSuspension, Infer, Collect, Steps, Known, SyncCode, LocalOk;
    var inSync := CleanDown(way, false, fe.functions);
    CleanUnfold(Last(way), inSync, fe.functions);
    StartRung(stmts, fe, way, path[0], inSync);
    NeverSuspends(stmts, fe, path);
  }

  lemma ArgumentIsChild(e: Expr)
    requires e.Call? && e.args != []
    ensures E(e.args[0]) in Children(E(e))
  {
    assert Children(E(e))[1] == E(e.args[0]);
  }

  lemma OwnBodyIsChild(n: Node)
    ensures n.E? && n.expr.Function? ==> S(n.expr.body) in Children(n)
    ensures n.S? && n.stmt.Sync? ==> S(n.stmt.body) in Children(n)
    ensures n.S? && n.stmt.Struct? ==> forall i :: 0 <= i < |n.stmt.methods| ==>
      S(n.stmt.methods[i].body) in Children(n)
  {
    if n.S? && n.stmt.Struct? {
      forall i | 0 <= i < |n.stmt.methods| ensures S(n.stmt.methods[i].body) in Children(n) {
        assert Children(n)[i] == S(n.stmt.methods[i].body);
      }
    } else if (n.E? && n.expr.Function?) || (n.S? && n.stmt.Sync?) {
      assert Children(n)[0] == S(if n.E? then n.expr.body else n.stmt.body);
    }
  }

  lemma StartInside(stmts: seq<Stmt>, way: seq<Node>, start: seq<Node>)
    requires Inside(stmts, way) && way != [] && SyncCode(stmts, way, start)
    ensures Inside(stmts, start)
  {
    hide Children, Inside, Resolve;
    var n := Last(way);
    OwnBodyIsChild(n);
    if n.E? && n.expr.Call? {
      var arg := n.expr.args[0];
      if arg.Function? && start == way + [E(arg), S(arg.body)] {
        ArgumentIsChild(n.expr);
        OwnBodyIsChild(E(arg));
        WayOn(stmts, way, E(arg));
        WayOn(stmts, way + [E(arg)], S(arg.body));
        assert start == way + [E(arg)] + [S(arg.body)];
      }
    } else {
      WayOn(stmts, way, Last(start));
    }
  }

  // In a first-order program nothing suspends.
  lemma FirstOrderSound(stmts: seq<Stmt>, fe: FunctionEffects)
    requires Solves(fe, Collect(stmts)) && Accepted(stmts, fe.functions) && FirstOrder(stmts)
    ensures NothingSuspends(stmts)
  {
    hide Solves, IsSuspension, Steps, Collect, AllKnown, Accepted, FirstOrder, Children, SyncCode;
    forall way, start | Inside(stmts, way) && SyncCode(stmts, way, start) ensures !SuspendsFrom(stmts, start) {
      StartInside(stmts, way, start);
      forall path | Evaluation(stmts, path) && path[0] == start ensures !IsSuspension(stmts, path[|path| - 1]) {
        PathInside(stmts, path);
        SyncSound(stmts, fe, way, path);
      }
    }
  }

  // Inference and check together, as for every program that is bundled: what passes cannot suspend
  // in a synchronous context, if the program is first-order and has at most ten functions' names.
  method InferAndCheck(stmts: seq<Stmt>) returns (errors: seq<EffectError>)
    ensures errors == [] && FirstOrder(stmts) && |Names(Collect(stmts).fns)| <= 10 ==> NothingSuspends(stmts)
  {
    hide Accepted, FirstOrder, NothingSuspends, Collect;
    var fe, rounds, converged := InferEffects(stmts);
    errors := CheckSyncConstraints(stmts, fe);
    if errors == [] && FirstOrder(stmts) && |Names(Collect(stmts).fns)| <= 10 {
      NotLeast(fe, Collect(stmts));
      FirstOrderSound(stmts, fe);
    }
  }

  // ---------------------------------------------------------------- what names mean at the places of a witness

  lemma AssignsOf(n: Node, name: string)
    ensures Assigns(n, name) <==>
      (n.E? && n.expr.Assign? && n.expr.target == name)
      || exists i :: 0 <= i < |Children(n)| && Assigns(Children(n)[i], name)
  {
    hide Children;
  }

  lemma LeafAssigns(n: Node, name: string)
    requires Children(n) == [] && !(n.E? && n.expr.Assign?)
    ensures !Assigns(n, name)
  {
    hide Children, Assigns;
    AssignsOf(n, name);
  }

  lemma Assigns1(n: Node, a: Node, name: string)
    requires Children(n) == [a] && !(n.E? && n.expr.Assign?)
    ensures Assigns(n, name) <==> Assigns(a, name)
  {
    hide Children, Assigns;
    AssignsOf(n, name);
    assert [a][0] == a;
  }

  lemma Assigns2(n: Node, a: Node, b: Node, name: string)
    requires Children(n) == [a, b] && !(n.E? && n.expr.Assign?)
    ensures Assigns(n, name) <==> Assigns(a, name) || Assigns(b, name)
  {
    hide Children, Assigns;
    AssignsOf(n, name);
    assert [a, b][0] == a && [a, b][1] == b;
  }

  function CallOf(name: string): Node { E(Call(Variable(name, NOWHERE), [])) }

  lemma CallAssigns(name: string, other: string)
    ensures !Assigns(CallOf(name), other)
  {
    hide Assigns;
    var v := E(Variable(name, NOWHERE));
    assert Children(CallOf(name)) == [v];
    LeafAssigns(v, other);
    Assigns1(CallOf(name), v, other);
  }

  lemma {:induction false} BinderNone(way: seq<Node>, name: string)
    requires forall i :: 0 <= i < |way| ==> !Binds(way[i], name)
    ensures Binder(way, name) == None
  {
  }

  lemma BinderAt(way: seq<Node>, k: nat, name: string)
    requires k < |way| && Binds(way[k], name)
    requires forall i :: k < i < |way| ==> !Binds(way[i], name)
    ensures Binder(way, name) == Some(k)
  {
  }

  // A call in a chain of statements that declare nothing.
  predicate Plain(n: Node)
  {
    match n
    case E(e) => e.Call? || (e.Function? && e.params == [])
    case S(s) => s.ExprStmt? || s.Return? || s.VarDecl? || s.Sync?
  }

  lemma PlainBinds(n: Node, name: string)
    requires Plain(n)
    ensures !Binds(n, name)
  {
  }

  lemma StepFirst(stmts: seq<Stmt>, way: seq<Node>, path: seq<seq<Node>>)
    requires way != [] && Evaluation(stmts, path) && path[0] != [] && Steps(stmts, way, path[0])
    ensures Evaluation(stmts, [way] + path) && ([way] + path)[0] == way
  {
    hide Steps;
    var all := [way] + path;
    forall i | 0 <= i < |all| - 1 ensures all[i] != [] && Steps(stmts, all[i], all[i + 1]) {
      assert all[i + 1] == path[i];
      assert i > 0 ==> all[i] == path[i - 1];
    }
  }

  // Evaluation suspends here, or after a step.
  lemma SuspendsUnfold(stmts: seq<Stmt>, way: seq<Node>)
    requires way != []
    ensures SuspendsFrom(stmts, way) <==>
      IsSuspension(stmts, way) || exists next :: next != [] && Steps(stmts, way, next) && SuspendsFrom(stmts, next)
  {
    hide Steps, IsSuspension;
    if SuspendsFrom(stmts, way) {
      var path :| Evaluation(stmts, path) && path[0] == way && IsSuspension(stmts, path[|path| - 1]);
      if |path| > 1 {
        EvaluationOn(stmts, path);
        assert SuspendsFrom(stmts, path[1]);
      }
    }
    if IsSuspension(stmts, way) {
      assert Evaluation(stmts, [way]) && [way][0] == way;
    }
    if next :| next != [] && Steps(stmts, way, next) && SuspendsFrom(stmts, next) {
      var path :| Evaluation(stmts, path) && path[0] == next && IsSuspension(stmts, path[|path| - 1]);
      StepFirst(stmts, way, path);
      assert ([way] + path)[|path|] == path[|path| - 1];
    }
  }

  lemma DownTo(way: seq<Node>, m: Node)
    requires way != [] && m in Parts(Last(way))
    ensures StepsDown(way, way + [m])
  {
    assert (way + [m])[..|way|] == way;
  }

  // ---------------------------------------------------------------- where the cap lets a suspension through

  // A chain of functions and a sync block that calls the first.
  function ChainInSync(k: nat): seq<Stmt>
  {
    Chain(k) + [Sync(ExprStmt(Call(Variable(FnName(0), NOWHERE), [])))]
  }

  lemma {:induction false} FnsAppend(a: seq<Stmt>, b: seq<Stmt>)
    ensures CollectFnsOf(a + b) == CollectFnsOf(a) + CollectFnsOf(b)
    decreases |a|
  {
    hide CollectFns;
    if a == [] {
      assert a + b == b;
    } else {
      assert (a + b)[0] == a[0] && (a + b)[1..] == a[1..] + b;
      FnsAppend(a[1..], b);
    }
  }

  lemma {:induction false} MethodsAppend(a: seq<Stmt>, b: seq<Stmt>)
    ensures CollectMethodsOf(a + b) == CollectMethodsOf(a) + CollectMethodsOf(b)
    decreases |a|
  {
    hide CollectMethods;
    if a == [] {
      assert a + b == b;
    } else {
      assert (a + b)[0] == a[0] && (a + b)[1..] == a[1..] + b;
      MethodsAppend(a[1..], b);
    }
  }

  lemma SameFunctions(k: nat)
    ensures Collect(ChainInSync(k)) == Collect(Chain(k)) && Collect(Chain(k)).fns == ChainFns(k)
  {
    var b := [Sync(ExprStmt(Call(Variable(FnName(0), NOWHERE), [])))];
    FnsAppend(Chain(k), b);
    MethodsAppend(Chain(k), b);
    assert b[1..] == [];
    assert CollectFns(b[0]) == [] && CollectMethods(b[0]) == [];
    ChainCollected(0, k);
    assert Chain(k)[0..] == Chain(k) && ChainFns(k)[0..] == ChainFns(k);
  }

  lemma CallClean(name: string, inSync: bool, fns: Rungs)
    requires inSync ==> RungOf(fns, name) != Suspends
    ensures Clean(E(Call(Variable(name, NOWHERE), [])), inSync, fns)
  {
    hide Clean, InferExpr;
    var v := E(Variable(name, NOWHERE));
    var n := E(Call(Variable(name, NOWHERE), []));
    CallRung(name, fns);
    LeafClean(v, inSync, fns);
    assert Children(n) == [v];
    Clean1(n, v, inSync, fns);
  }

  lemma DeclClean(i: nat, k: nat, fns: Rungs)
    ensures Clean(S(ChainDecl(i, k)), false, fns)
  {
    hide Clean, FnName, Callee;
    var call := E(Call(Variable(Callee(i, k), NOWHERE), []));
    CallClean(Callee(i, k), false, fns);
    Clean1(S(ChainBody(i, k)), call, false, fns);
    var f := Function([], ChainBody(i, k), false, false);
    Clean1(E(f), S(ChainBody(i, k)), false, fns);
    Clean1(S(ChainDecl(i, k)), E(f), false, fns);
  }

  // The place of the body of the i-th function, and of the call in it.
  function ChainPlace(i: nat, k: nat): seq<Node>
  {
    [S(ChainDecl(i, k)), E(Function([], ChainBody(i, k), false, false)), S(ChainBody(i, k))]
  }

  lemma AssignsNone(ss: seq<Stmt>, name: string)
    requires forall i :: 0 <= i < |ss| ==> !Assigns(S(ss[i]), name)
    ensures !Reassigned(ss, name)
  {
    hide AssignsStmt;
    forall i | 0 <= i < |ss| ensures !AssignsStmt(ss[i], name) {
      assert !Assigns(S(ss[i]), name);
    }
  }

  lemma DeclAssigns(i: nat, k: nat, name: string)
    ensures !Assigns(S(ChainDecl(i, k)), name)
  {
    hide Assigns, FnName, Callee;
    var f := E(Function([], ChainBody(i, k), false, false));
    CallAssigns(Callee(i, k), name);
    Assigns1(S(ChainBody(i, k)), CallOf(Callee(i, k)), name);
    Assigns1(f, S(ChainBody(i, k)), name);
    Assigns1(S(ChainDecl(i, k)), f, name);
  }

  lemma SyncAssigns(callee: string, name: string)
    ensures !Assigns(S(Sync(ExprStmt(CallOf(callee).expr))), name)
  {
    hide Assigns;
    var body := ExprStmt(CallOf(callee).expr);
    CallAssigns(callee, name);
    Assigns1(S(body), CallOf(callee), name);
    Assigns1(S(Sync(body)), S(body), name);
  }

  lemma ChainAssigns(k: nat, name: string)
    ensures !Reassigned(ChainInSync(k), name)
  {
    hide Assigns, FnName, ChainDecl;
    var ss := ChainInSync(k);
    forall i | 0 <= i < |ss| ensures !Assigns(S(ss[i]), name) {
      if i < k {
        assert ss[i] == ChainDecl(i, k);
        DeclAssigns(i, k, name);
      } else {
        SyncAssigns(FnName(0), name);
      }
    }
    AssignsNone(ss, name);
  }

  // A name in the chain is a function of the chain, or sleep.
  lemma ChainResolves(k: nat, way: seq<Node>, i: nat)
    requires i <= k && forall j :: 0 <= j < |way| ==> Plain(way[j])
    ensures Resolve(ChainInSync(k), way, if i == k then "sleep" else FnName(i))
      == if i == k then Primitive else Collected
  {
    hide FnName, Seeds, Binds, Reassigned, Collect, Callee;
    var name := if i == k then "sleep" else FnName(i);
    var ss := ChainInSync(k);
    forall j | 0 <= j < |way| ensures !Binds(way[j], name) {
      PlainBinds(way[j], name);
    }
    BinderNone(way, name);
    ChainAssigns(k, name);
    SameFunctions(k);
    assert OnlyFunctions(ss, name);
    var fns := Collect(ss).fns;
    assert fns == ChainFns(k);
    if i < k {
      assert fns[i].0 == name;
    } else {
      forall j | 0 <= j < |fns| ensures fns[j].0 != "sleep" {
        NamesApart(j, j);
      }
      NamesApart(0, 0);
    }
  }

  lemma ChainEntered(k: nat, i: nat)
    requires i < k
    ensures CollectedAt(ChainInSync(k), FnName(i), ChainPlace(i, k))
  {
    hide FnName, Callee;
    var way := ChainPlace(i, k);
    assert ChainInSync(k)[i] == ChainDecl(i, k);
    var f := E(Function([], ChainBody(i, k), false, false));
    assert Children(way[0])[0] == f && Children(f)[0] == way[2];
    hide Children;
    assert way[..|way| - 3] == [];
  }

  // Evaluation from the body of the i-th function gets to the call of sleep.
  lemma {:induction false} ChainReaches(k: nat, i: nat) returns (path: seq<seq<Node>>)
    requires i < k
    ensures Evaluation(ChainInSync(k), path) && path[0] == ChainPlace(i, k) && AllKnown(ChainInSync(k), path)
    ensures path[|path| - 1] != [] && IsSuspension(ChainInSync(k), path[|path| - 1])
    decreases k - i
  {
    hide FnName, Seeds, Collect, ChainInSync, Resolve, CollectedAt;
    var ss, way, call := ChainInSync(k), ChainPlace(i, k), CallOf(Callee(i, k));
    var last := way + [call];
    assert Parts(Last(way))[0] == call;
    hide Parts;
    DownTo(way, call);
    assert forall j :: 0 <= j < |last| ==> Plain(last[j]);
    ChainResolves(k, last, i + 1);
    NamesApart(0, 0);
    if i + 1 == k {
      path := [way, last];
    } else {
      path := ChainReaches(k, i + 1);
      ChainEntered(k, i + 1);
      StepFirst(ss, last, path);
      path := [last] + path;
      StepFirst(ss, way, path);
      path := [way] + path;
    }
  }

  lemma BlockRung(e: Expr, fns: Rungs)
    ensures InferStmt(ExprStmt(e), fns) == InferExpr(e, fns)
  {
  }

  lemma CallingClean(fns: Rungs)
    requires RungOf(fns, FnName(0)) == Pure
    ensures Clean(S(Sync(ExprStmt(Call(Variable(FnName(0), NOWHERE), [])))), false, fns)
  {
    hide FnName, Clean, InferStmt, InferExpr;
    var call := E(Call(Variable(FnName(0), NOWHERE), []));
    var body := ExprStmt(call.expr);
    CallClean(FnName(0), true, fns);
    CallRung(FnName(0), fns);
    BlockRung(call.expr, fns);
    Clean1(S(body), call, true, fns);
    Clean1(S(Sync(body)), S(body), false, fns);
  }

  lemma ChainAccepted(k: nat)
    requires k > 10
    ensures Accepted(ChainInSync(k), Rounds(Collect(ChainInSync(k)), 10).functions)
  {
    hide FnName, Clean, InferStmt, Rounds, InferExpr, Collect, ChainDecl;
    SameFunctions(k);
    ChainExact(k);
    var fns := Rounds(Collect(Chain(k)), 10).functions;
    forall i | 0 <= i < |ChainInSync(k)| ensures Clean(S(ChainInSync(k)[i]), false, fns) {
      if i < k {
        assert ChainInSync(k)[i] == ChainDecl(i, k);
        DeclClean(i, k, fns);
      } else {
        CallingClean(fns);
      }
    }
  }

  /** Ten rounds are not enough for a chain of more than ten functions: the checker then accepts a
      sync block whose evaluation does get to sleep, and all of its calls are known. */
  lemma CapLetsThrough(k: nat) returns (path: seq<seq<Node>>)
    requires k > 10
    ensures Accepted(ChainInSync(k), Rounds(Collect(ChainInSync(k)), 10).functions)
    ensures Evaluation(ChainInSync(k), path) && AllKnown(ChainInSync(k), path)
    ensures var block := S(ChainInSync(k)[k]); EntersSync(block) && path[0] == [block, S(SyncBody(block))]
    ensures path[|path| - 1] != [] && IsSuspension(ChainInSync(k), path[|path| - 1])
  {
    hide FnName, IsSuspension, Rounds, Collect, Accepted, Seeds, Resolve, CollectedAt;
    ChainAccepted(k);
    var ss, call := ChainInSync(k), CallOf(FnName(0));
    var body := ExprStmt(call.expr);
    assert ss[k] == Sync(body);
    hide ChainInSync;
    var way := [S(Sync(body)), S(body)];
    var last := way + [call];
    assert Parts(S(body))[0] == call;
    hide Parts;
    DownTo(way, call);
    assert forall j :: 0 <= j < |last| ==> Plain(last[j]);
    ChainResolves(k, last, 0);
    path := ChainReaches(k, 0);
    ChainEntered(k, 0);
    StepFirst(ss, last, path);
    path := [last] + path;
    StepFirst(ss, way, path);
    path := [way] + path;
  }

  // ---------------------------------------------------------------- where a function inside another does

  // fn outer() { fn inner() body sync { inner(); } }
  function SyncPart(): Stmt { Sync(ExprStmt(CallOf(FnName(1)).expr)) }

  function InnerDecl(body: Stmt): Stmt { VarDecl(FnName(1), true, Function([], body, false, false), NOWHERE) }

  function OuterBody(body: Stmt): Stmt { Block([InnerDecl(body), SyncPart()]) }

  function OuterDecl(body: Stmt): Stmt
  {
    VarDecl(FnName(0), true, Function([], OuterBody(body), false, false), NOWHERE)
  }

  // The places of the outer body, of the sync block's code, and of the inner body.
  function OuterPlace(body: Stmt): seq<Node>
  {
    [S(OuterDecl(body)), E(OuterDecl(body).init), S(OuterBody(body))]
  }

  function SyncPlace(body: Stmt): seq<Node>
  {
    OuterPlace(body) + [S(SyncPart()), S(SyncPart().body)]
  }

  function InnerPlace(body: Stmt): seq<Node>
  {
    OuterPlace(body) + [S(InnerDecl(body)), E(InnerDecl(body).init), S(body)]
  }

  lemma OuterCollected(body: Stmt)
    ensures Collect([OuterDecl(body)]) == Program([(FnName(0), OuterBody(body))], [])
  {
    hide FnName, OuterBody;
    var ss := [OuterDecl(body)];
    assert ss[1..] == [] && CollectFns(ss[0]) == [(FnName(0), OuterBody(body))] && CollectMethods(ss[0]) == [];
    assert CollectFnsOf([]) == [] && CollectMethodsOf([]) == [];
  }

  lemma FunctionRung(body: Stmt, fns: Rungs)
    ensures InferExpr(Function([], body, false, false), fns) == Pure
  {
  }

  lemma BlockOf(ss: seq<Stmt>, fns: Rungs)
    ensures InferStmt(Block(ss), fns) == InferStmts(Pure, ss, fns)
  {
  }

  lemma OuterRung(body: Stmt, fns: Rungs)
    requires RungOf(fns, FnName(1)) == Pure
    ensures InferStmt(OuterBody(body), fns) == Pure
  {
    hide FnName;
    var call := CallOf(FnName(1)).expr;
    CallRung(FnName(1), fns);
    hide InferExpr;
    assert InferStmt(ExprStmt(call), fns) == Pure;
    assert InferStmt(SyncPart(), fns) == Pure;
    assert InferExpr(InnerDecl(body).init, fns) == Pure by { FunctionRung(body, fns); }
    assert InferStmt(InnerDecl(body), fns) == Pure;
    hide InferStmt;
    var ss := [InnerDecl(body), SyncPart()];
    assert ss[1..] == [SyncPart()] && ss[1..][1..] == [];
    assert InferStmts(Pure, [], fns) == Pure && InferStmts(Pure, [SyncPart()], fns) == Pure;
    assert InferStmts(Pure, ss, fns) == Pure;
    BlockOf(ss, fns);
  }

  // The inner function is not collected, so that its name is taken for pure.
  lemma InnerPure(body: Stmt, k: nat)
    ensures RungOf(Rounds(Collect([OuterDecl(body)]), k).functions, FnName(1)) == Pure
  {
    hide Rounds, InferStmt, Seeds, FnName, OuterBody;
    var p := Collect([OuterDecl(body)]);
    var t := FunctionEffects(Seeds(), map[]);
    OuterCollected(body);
    NamesApart(1, 1);
    NamesApart(0, 0);
    OuterRung(body, Seeds());
    assert p.fns[0] == (FnName(0), OuterBody(body));
    assert Below(Seeds(), Seeds());
    assert Solves(t, p);
    RoundsBetween(p, k, t);
    assert Le(RungOf(Rounds(p, k).functions, FnName(1)), RungOf(Seeds(), FnName(1)));
  }

  lemma OuterAccepted(body: Stmt, fns: Rungs)
    requires RungOf(fns, FnName(1)) == Pure
    ensures Accepted([OuterDecl(body)], fns) <==> Clean(S(body), false, fns)
  {
    hide FnName, Clean, InferStmt, InferExpr;
    var inner, call := E(InnerDecl(body).init), CallOf(FnName(1));
    Clean1(inner, S(body), false, fns);
    Clean1(S(InnerDecl(body)), inner, false, fns);
    CallClean(FnName(1), true, fns);
    CallRung(FnName(1), fns);
    BlockRung(call.expr, fns);
    Clean1(S(SyncPart().body), call, true, fns);
    Clean1(S(SyncPart()), S(SyncPart().body), false, fns);
    Clean2(S(OuterBody(body)), S(InnerDecl(body)), S(SyncPart()), false, fns);
    Clean1(E(OuterDecl(body).init), S(OuterBody(body)), false, fns);
    Clean1(S(OuterDecl(body)), E(OuterDecl(body).init), false, fns);
    assert [OuterDecl(body)][0] == OuterDecl(body);
  }

  lemma OuterAssigns(body: Stmt, name: string)
    requires !Assigns(S(body), name)
    ensures !Reassigned([OuterDecl(body)], name)
  {
    hide Assigns, FnName;
    var inner, call := E(InnerDecl(body).init), CallOf(FnName(1));
    Assigns1(inner, S(body), name);
    Assigns1(S(InnerDecl(body)), inner, name);
    CallAssigns(FnName(1), name);
    Assigns1(S(SyncPart().body), call, name);
    Assigns1(S(SyncPart()), S(SyncPart().body), name);
    Assigns2(S(OuterBody(body)), S(InnerDecl(body)), S(SyncPart()), name);
    Assigns1(E(OuterDecl(body).init), S(OuterBody(body)), name);
    Assigns1(S(OuterDecl(body)), E(OuterDecl(body).init), name);
    AssignsNone([OuterDecl(body)], name);
  }

  lemma OuterBinds(body: Stmt)
    ensures Binds(S(OuterBody(body)), FnName(1)) && OnlyFunctions([InnerDecl(body), SyncPart()], FnName(1))
    ensures DeclaresFn(InnerDecl(body), FnName(1)) && !Declares(SyncPart(), FnName(1))
  {
    hide FnName;
    assert ScopeOf(S(OuterBody(body)))[0] == InnerDecl(body);
  }

  // The call means the function beside the sync block.
  lemma InnerResolves(body: Stmt)
    requires !Assigns(S(body), FnName(1))
    ensures Resolve([OuterDecl(body)], SyncPlace(body) + [CallOf(FnName(1))], FnName(1)) == Local(2)
  {
    hide FnName, Binds, Assigns, Reassigned, Binder;
    var way, name := SyncPlace(body) + [CallOf(FnName(1))], FnName(1);
    OuterAssigns(body, name);
    OuterBinds(body);
    forall i | 2 < i < |way| ensures !Binds(way[i], name) {
      PlainBinds(way[i], name);
    }
    assert way[2] == S(OuterBody(body));
    BinderAt(way, 2, name);
    assert way[..3][1].E?;
  }

  lemma FunctionIsDeclared(s: Stmt, name: string)
    ensures DeclaresFn(s, name) ==> Declares(s, name)
  {
  }

  lemma InnerEnters(body: Stmt, next: seq<Node>)
    requires Resolve([OuterDecl(body)], SyncPlace(body) + [CallOf(FnName(1))], FnName(1)) == Local(2)
    ensures Enters([OuterDecl(body)], SyncPlace(body) + [CallOf(FnName(1))], FnName(1), next)
      <==> next == InnerPlace(body)
  {
    hide FnName, Resolve, DeclaresFn, Declares;
    OuterBinds(body);
    var way := SyncPlace(body) + [CallOf(FnName(1))];
    var scope := ScopeOf(way[2]);
    assert scope == [InnerDecl(body), SyncPart()];
    assert way[..3] == OuterPlace(body);
    assert !DeclaresFn(scope[1], FnName(1)) by { FunctionIsDeclared(scope[1], FnName(1)); }
    assert scope[0] == InnerDecl(body);
  }

  lemma DownOnly(way: seq<Node>, v: Node, next: seq<Node>)
    requires way != [] && Parts(Last(way)) == [v] && next != []
    ensures StepsDown(way, next) <==> next == way + [v]
  {
    assert (way + [v])[..|way|] == way;
    if StepsDown(way, next) {
      assert next == next[..|next| - 1] + [Last(next)];
    }
  }

  // The call of the inner function leads to its body, and nowhere else.
  lemma InnerSteps(body: Stmt, next: seq<Node>)
    requires !Assigns(S(body), FnName(1)) && next != []
    ensures Steps([OuterDecl(body)], SyncPlace(body) + [CallOf(FnName(1))], next) <==>
      next == InnerPlace(body) || next == SyncPlace(body) + [CallOf(FnName(1)), E(Variable(FnName(1), NOWHERE))]
  {
    hide FnName, Assigns, Resolve, DeclaresFn, Declares;
    InnerResolves(body);
    OuterBinds(body);
    var call, v := CallOf(FnName(1)), E(Variable(FnName(1), NOWHERE));
    var way := SyncPlace(body) + [call];
    assert Parts(call) == [v];
    hide Parts;
    assert StepsDown(way, next) <==> next == SyncPlace(body) + [call, v] by { DownOnly(way, v, next); }
    InnerEnters(body, next);
  }

  lemma VariableEnds(stmts: seq<Stmt>, way: seq<Node>)
    requires way != [] && Last(way).E? && Last(way).expr.Variable?
    ensures !SuspendsFrom(stmts, way)
  {
    SuspendsUnfold(stmts, way);
    forall next | next != [] ensures !Steps(stmts, way, next) {
    }
  }

  lemma CallNoSuspension(stmts: seq<Stmt>, way: seq<Node>, i: nat)
    requires way != [] && Last(way) == CallOf(FnName(i))
    ensures !IsSuspension(stmts, way)
  {
    hide FnName, Seeds, Parks, Acts, Looks;
    NamesApart(i, i);
    SeedsExact(FnName(i));
  }

  // Evaluation of the call suspends exactly when that of the inner body does.
  lemma CallSuspends(body: Stmt)
    requires !Assigns(S(body), FnName(1))
    ensures SuspendsFrom([OuterDecl(body)], SyncPlace(body) + [CallOf(FnName(1))])
      <==> SuspendsFrom([OuterDecl(body)], InnerPlace(body))
  {
    hide FnName, Assigns, Steps, IsSuspension, SuspendsFrom;
    var ss, way := [OuterDecl(body)], SyncPlace(body) + [CallOf(FnName(1))];
    var variable := SyncPlace(body) + [CallOf(FnName(1)), E(Variable(FnName(1), NOWHERE))];
    SuspendsUnfold(ss, way);
    CallNoSuspension(ss, way, 1);
    VariableEnds(ss, variable);
    forall next | next != [] ensures Steps(ss, way, next) <==> next == InnerPlace(body) || next == variable {
      InnerSteps(body, next);
    }
  }

  // The sync block's code is the call.
  lemma BlockSuspends(body: Stmt)
    ensures SuspendsFrom([OuterDecl(body)], SyncPlace(body))
      <==> SuspendsFrom([OuterDecl(body)], SyncPlace(body) + [CallOf(FnName(1))])
  {
    hide FnName, SuspendsFrom;
    var ss, way, call := [OuterDecl(body)], SyncPlace(body), CallOf(FnName(1));
    SuspendsUnfold(ss, way);
    assert Parts(Last(way)) == [call];
    hide Parts;
    forall next | next != [] ensures Steps(ss, way, next) <==> next == way + [call] {
      DownOnly(way, call, next);
    }
  }

  /** The body of a function is not searched for functions, and a call of one declared there is taken
      for pure: whether the checker accepts the sync block that calls it does not depend on whether
      the called body suspends, which evaluation of the block does exactly then. */
  lemma NestedExact(body: Stmt, k: nat)
    requires !Assigns(S(body), FnName(1))
    ensures
      var fns := Rounds(Collect([OuterDecl(body)]), k).functions;
      Accepted([OuterDecl(body)], fns) <==> Clean(S(body), false, fns)
    ensures SuspendsFrom([OuterDecl(body)], SyncPlace(body)) <==> SuspendsFrom([OuterDecl(body)], InnerPlace(body))
  {
    hide FnName, Assigns, Accepted, Clean, Rounds, Collect, SuspendsFrom;
    InnerPure(body, k);
    OuterAccepted(body, Rounds(Collect([OuterDecl(body)]), k).functions);
    CallSuspends(body);
    BlockSuspends(body);
  }

  function Sleeping(): Stmt { ExprStmt(CallOf("sleep").expr) }

  lemma OuterBindsNot(body: Stmt, name: string)
    requires name != FnName(1)
    ensures !Binds(S(OuterBody(body)), name)
  {
    hide FnName;
  }

  lemma OneName(f: (string, Stmt))
    ensures Names([f]) == {f.0}
  {
    assert [f][0] == f;
  }

  lemma SleepResolves()
    ensures Resolve([OuterDecl(Sleeping())], InnerPlace(Sleeping()) + [CallOf("sleep")], "sleep") == Primitive
  {
    hide FnName, Seeds, Binds, Binder, Assigns, Reassigned, Collect;
    var body := Sleeping();
    var way := InnerPlace(body) + [CallOf("sleep")];
    NamesApart(0, 0);
    NamesApart(1, 1);
    CallAssigns("sleep", "sleep");
    Assigns1(S(body), CallOf("sleep"), "sleep");
    OuterAssigns(body, "sleep");
    OuterBindsNot(body, "sleep");
    forall i | 0 <= i < |way| ensures !Binds(way[i], "sleep") {
      if i != 2 {
        PlainBinds(way[i], "sleep");
      }
    }
    BinderNone(way, "sleep");
    OuterCollected(body);
    OneName((FnName(0), OuterBody(body)));
  }

  lemma SleepSuspends()
    ensures SuspendsFrom([OuterDecl(Sleeping())], InnerPlace(Sleeping()))
  {
    hide FnName, Seeds, Acts, Looks;
    var ss, way, call := [OuterDecl(Sleeping())], InnerPlace(Sleeping()), CallOf("sleep");
    NamesApart(0, 0);
    NamesApart(1, 1);
    SleepResolves();
    hide Resolve;
    SuspendsUnfold(ss, way);
    SuspendsUnfold(ss, way + [call]);
    assert Parts(Last(way))[0] == call;
    hide Parts;
    DownTo(way, call);
  }

  lemma OuterInside(body: Stmt)
    ensures Inside([OuterDecl(body)], OuterPlace(body) + [S(SyncPart())])
  {
    hide FnName;
    var way := OuterPlace(body) + [S(SyncPart())];
    assert Children(way[0])[0] == way[1] && Children(way[1])[0] == way[2] && Children(way[2])[1] == way[3];
    hide Children;
    assert [OuterDecl(body)][0] == OuterDecl(body);
  }

  /** The failing input: the checker accepts a sync block that calls an inner function which sleeps,
      after any number of rounds, and evaluation of the block does suspend. */
  lemma NestedLetsThrough(k: nat)
    ensures Accepted([OuterDecl(Sleeping())], Rounds(Collect([OuterDecl(Sleeping())]), k).functions)
    ensures EntersSync(S(SyncPart())) && Inside([OuterDecl(Sleeping())], OuterPlace(Sleeping()) + [S(SyncPart())])
    ensures SuspendsFrom([OuterDecl(Sleeping())], SyncPlace(Sleeping()))
  {
    hide FnName, Clean, Rounds, Collect, SuspendsFrom, Inside, Accepted, Assigns;
    var body := Sleeping();
    CallAssigns("sleep", FnName(1));
    Assigns1(S(body), CallOf("sleep"), FnName(1));
    NestedExact(body, k);
    SleepSuspends();
    var fns := Rounds(Collect([OuterDecl(body)]), k).functions;
    CallClean("sleep", false, fns);
    Clean1(S(body), CallOf("sleep"), false, fns);
    OuterInside(body);
  }

  lemma EmptyEnds(stmts: seq<Stmt>, way: seq<Node>)
    requires way != [] && Last(way) == S(Block([]))
    ensures !SuspendsFrom(stmts, way)
  {
    hide SuspendsFrom, Enters;
    SuspendsUnfold(stmts, way);
    assert Parts(Last(way)) == [];
    forall next | next != [] ensures !Steps(stmts, way, next) {
    }
  }

  /** With an inner function that does nothing, it does not. */
  lemma NestedHarmless()
    ensures !SuspendsFrom([OuterDecl(Block([]))], SyncPlace(Block([])))
  {
    hide FnName, Assigns, SuspendsFrom;
    var body := Block([]);
    LeafAssigns(S(body), FnName(1));
    NestedExact(body, 0);
    EmptyEnds([OuterDecl(body)], InnerPlace(body));
  }
}
