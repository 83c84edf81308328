/** Effect inference (crates/eronom-frontend/src/effects.rs): the rung of an expression or a
    statement under given rungs of functions, and the iteration that finds the rungs of a program. */
module Effects {
  import opened Options
  import opened Ast

  datatype EffectRung = Pure | Impure | Suspends

  function Height(r: EffectRung): nat
  {
    match r case Pure => 0 case Impure => 1 case Suspends => 2
  }

  predicate Le(a: EffectRung, b: EffectRung)
  {
    Height(a) <= Height(b)
  }

  function Combine(a: EffectRung, b: EffectRung): EffectRung
  {
    if Height(a) >= Height(b) then a else b
  }

  type Rungs = map<string, EffectRung>

  function RungOf(m: Rungs, name: string): EffectRung
  {
    if name in m then m[name] else Pure
  }

  datatype FunctionEffects = FunctionEffects(functions: Rungs, methods: Rungs)

  const SUSPENDING: seq<string> :=
    ["fetch", "fetchEvented", "futureAwait", "sleep", "spawnTask", "wait", "await", "Eronom_fiberYield",
    "Eronom_fiberJoin", "Eronom_bracket", "Eronom_maskInterrupts", "Eronom_unmaskInterrupts", "yield"]

  const EFFECTFUL: seq<string> :=
    ["fetchSync", "Eronom_fiberSpawn", "Eronom_fiberInterrupt", "Eronom_fiberAddFinalizer", "print", "println",
    "write", "setIoMode", "setTimeout", "clearTimeout", "arrayPush", "arrayPop", "arrayShift"]

  const HARMLESS: seq<string> := ["arrayLen", "stringIndexOf", "now", "localTimeString"]

  // The rungs the primitives start with.
  function Seeds(): Rungs
  {
    map name | name in SUSPENDING + EFFECTFUL + HARMLESS ::
      if name in SUSPENDING then Suspends else if name in EFFECTFUL then Impure else Pure
  }

  // ---------------------------------------------------------------- the rung of a piece of syntax

  predicate TaskSuspends(prop: string)
  {
    prop in ["race", "timeout", "forEach", "scope"]
  }

  // Reading Io.wait or one of Task's combinators counts as suspending.
  predicate GetSuspends(obj: Expr, prop: string)
  {
    obj.Variable? && ((obj.name == "Io" && prop == "wait") || (obj.name == "Task" && TaskSuspends(prop)))
  }

  // Calling one of these methods suspends.
  predicate MethodSuspends(obj: Expr, method': string)
  {
    || method' in ["join", "wait", "yield"]
    || (obj.Variable? && obj.name == "Io" && method' == "wait")
    || (obj.Variable? && obj.name == "Task" && (TaskSuspends(method') || method' in ["yield", "join"]))
    || (obj.Variable? && obj.name == "Clock" && method' in ["run", "advance", "schedule"])
  }

  function InferExpr(e: Expr, fns: Rungs): EffectRung
    decreases e, 1
  {
    match e
    case Literal(_) => Pure
    case Variable(name, _) => RungOf(fns, name)
    case Assign(_, val, _) => Combine(Impure, InferExpr(val, fns))
    case Binary(l, _, r) => Combine(InferExpr(l, fns), InferExpr(r, fns))
    case Logical(l, _, r) => Combine(InferExpr(l, fns), InferExpr(r, fns))
    case Unary(_, x) => InferExpr(x, fns)
    case TypeCast(x, _, _) => InferExpr(x, fns)
    case New(x) => InferExpr(x, fns)
    case Prefix(_, x) => Combine(Impure, InferExpr(x, fns))
    case Postfix(_, x) => Combine(Impure, InferExpr(x, fns))
    case Ternary(c, t, f) => Combine(Combine(InferExpr(c, fns), InferExpr(t, fns)), InferExpr(f, fns))
    case Array(es) => InferExprs(Pure, es, fns)
    case Object(ps) => InferPairs(Pure, ps, fns)
    case Get(obj, prop) => if GetSuspends(obj, prop) then Suspends else InferExpr(obj, fns)
    case Set(obj, _, val) => Combine(Combine(Impure, InferExpr(obj, fns)), InferExpr(val, fns))
    case GetIndex(obj, idx) => Combine(InferExpr(obj, fns), InferExpr(idx, fns))
    case SetIndex(obj, idx, val) =>
      Combine(Combine(Combine(Impure, InferExpr(obj, fns)), InferExpr(idx, fns)), InferExpr(val, fns))
    case StructInst(_, ps, _) => InferPairs(Pure, ps, fns)
    case Spawn(x) => Combine(Impure, InferExpr(x, fns))
    case Await(x) => Combine(Suspends, InferExpr(x, fns))
    case Function(_, _, _, _) => Pure
    case Call(callee, args) =>
      var calleeRung := Combine(InferExpr(callee, fns),
        match callee
        case Variable(name, _) => RungOf(fns, name)
        case Get(obj, m) => if MethodSuspends(obj, m) then Suspends else Pure
        case Function(_, body, _, _) => InferStmt(body, fns)
        case _ => Pure);
      InferExprs(calleeRung, args, fns)
  }

  // Folds from the left, as the source's iterators do.
  function InferExprs(acc: EffectRung, es: seq<Expr>, fns: Rungs): EffectRung
    decreases es, 0
  {
    if es == [] then acc else InferExprs(Combine(acc, InferExpr(es[0], fns)), es[1..], fns)
  }

  function InferPairs(acc: EffectRung, ps: seq<(string, Expr)>, fns: Rungs): EffectRung
    decreases ps, 0
  {
    if ps == [] then acc
    else
      assert ps decreases to ps[0];
      InferPairs(Combine(acc, InferExpr(ps[0].1, fns)), ps[1..], fns)
  }

  function InferStmts(acc: EffectRung, ss: seq<Stmt>, fns: Rungs): EffectRung
    decreases ss, 0
  {
    if ss == [] then acc else InferStmts(Combine(acc, InferStmt(ss[0], fns)), ss[1..], fns)
  }

  function InferCases(acc: EffectRung, cs: seq<SwitchCase>, fns: Rungs): EffectRung
    decreases cs, 0
  {
    if cs == [] then acc
    else
      assert cs decreases to cs[0];
      InferCases(Combine(InferExprs(acc, cs[0].values, fns), InferStmt(cs[0].body, fns)), cs[1..], fns)
  }

  function InferOpt(s: Option<Stmt>, fns: Rungs): EffectRung
    decreases s, 0
  {
    if s.Some? then InferStmt(s.value, fns) else Pure
  }

  function InferStmt(s: Stmt, fns: Rungs): EffectRung
    decreases s, 1
  {
    match s
    case ExprStmt(e) => InferExpr(e, fns)
    case Print(e) => Combine(Impure, InferExpr(e, fns))
    case VarDecl(_, _, init, _) => InferExpr(init, fns)
    case Block(ss) => InferStmts(Pure, ss, fns)
    case If(c, t, f) => Combine(Combine(InferExpr(c, fns), InferStmt(t, fns)), InferOpt(f, fns))
    case While(c, b) => Combine(InferExpr(c, fns), InferStmt(b, fns))
    case For(_, start, end, b) => Combine(Combine(InferExpr(start, fns), InferExpr(end, fns)), InferStmt(b, fns))
    case ForIn(_, iter, b) => Combine(InferExpr(iter, fns), InferStmt(b, fns))
    case Break => Pure
    case Continue => Pure
    case Throw(e) => Combine(Impure, InferExpr(e, fns))
    case Try(t, c, f) =>
      var rung := InferStmt(t, fns);
      var caught := if c.Some? then Combine(rung, InferStmt(c.value.1, fns)) else rung;
      Combine(caught, InferOpt(f, fns))
    case Switch(e, cs, d) => Combine(InferCases(InferExpr(e, fns), cs, fns), InferOpt(d, fns))
    case Return(r, _) => if r.Some? then InferExpr(r.value, fns) else Pure
    case Import(_, _) => Pure
    case Export(inner) => InferStmt(inner, fns)
    case Struct(_, _, _, _) => Pure
    case Interface(_, _) => Pure
    case TypeAlias(_, _, _) => Pure
    case Enum(_, _, _) => Pure
    case Concurrent(b) => Combine(Suspends, InferStmt(b, fns))
    case Sync(b) => InferStmt(b, fns)
  }

  function Infer(n: Node, fns: Rungs): EffectRung
  {
    match n case E(e) => InferExpr(e, fns) case S(s) => InferStmt(s, fns)
  }

  // ---------------------------------------------------------------- the rung is a least upper bound

  // What a node adds itself, without its parts.
  function Own(n: Node, fns: Rungs): EffectRung
  {
    match n
    case E(Variable(name, _)) => RungOf(fns, name)
    case E(Assign(_, _, _)) => Impure
    case E(Prefix(_, _)) => Impure
    case E(Postfix(_, _)) => Impure
    case E(Set(_, _, _)) => Impure
    case E(SetIndex(_, _, _)) => Impure
    case E(Spawn(_)) => Impure
    case E(Await(_)) => Suspends
    case E(Get(obj, prop)) => if GetSuspends(obj, prop) then Suspends else Pure
    case E(Call(Get(obj, m), _)) => if MethodSuspends(obj, m) then Suspends else Pure
    case S(Print(_)) => Impure
    case S(Throw(_)) => Impure
    case S(Concurrent(_)) => Suspends
    case _ => Pure
  }

  // What is evaluated when a node is: its parts, and the body of a function called where it is written.
  function Evaluated(n: Node): seq<Node>
  {
    Parts(n) + (match n case E(Call(Function(_, body, _, _), _)) => [S(body)] case _ => [])
  }

  function JoinAll(acc: EffectRung, ns: seq<Node>, fns: Rungs): EffectRung
    decreases |ns|
  {
    if ns == [] then acc else JoinAll(Combine(acc, Infer(ns[0], fns)), ns[1..], fns)
  }

  lemma {:induction false} JoinAppend(acc: EffectRung, a: seq<Node>, b: seq<Node>, fns: Rungs)
    ensures JoinAll(acc, a + b, fns) == JoinAll(JoinAll(acc, a, fns), b, fns)
    decreases |a|
  {
    hide Infer;
    if a == [] {
      assert a + b == b;
    } else {
      assert (a + b)[0] == a[0] && (a + b)[1..] == a[1..] + b;
      JoinAppend(Combine(acc, Infer(a[0], fns)), a[1..], b, fns);
    }
  }

  lemma {:induction false} JoinAcc(acc: EffectRung, ns: seq<Node>, fns: Rungs)
    ensures JoinAll(acc, ns, fns) == Combine(acc, JoinAll(Pure, ns, fns))
    decreases |ns|
  {
    hide Infer;
    if ns != [] {
      JoinAcc(Combine(acc, Infer(ns[0], fns)), ns[1..], fns);
      JoinAcc(Combine(Pure, Infer(ns[0], fns)), ns[1..], fns);
    }
  }

  lemma {:induction false} ExprsJoin(acc: EffectRung, es: seq<Expr>, fns: Rungs)
    ensures InferExprs(acc, es, fns) == JoinAll(acc, ExprNodes(es), fns)
    decreases |es|
  {
    hide InferExpr;
    if es != [] {
      assert ExprNodes(es)[1..] == ExprNodes(es[1..]);
      ExprsJoin(Combine(acc, InferExpr(es[0], fns)), es[1..], fns);
    }
  }

  lemma {:induction false} PairsJoin(acc: EffectRung, ps: seq<(string, Expr)>, fns: Rungs)
    ensures InferPairs(acc, ps, fns) == JoinAll(acc, PairNodes(ps), fns)
    decreases |ps|
  {
    hide InferExpr;
    if ps != [] {
      assert PairNodes(ps)[1..] == PairNodes(ps[1..]);
      PairsJoin(Combine(acc, InferExpr(ps[0].1, fns)), ps[1..], fns);
    }
  }

  lemma {:induction false} StmtsJoin(acc: EffectRung, ss: seq<Stmt>, fns: Rungs)
    ensures InferStmts(acc, ss, fns) == JoinAll(acc, StmtNodes(ss), fns)
    decreases |ss|
  {
    hide InferStmt;
    if ss != [] {
      assert StmtNodes(ss)[1..] == StmtNodes(ss[1..]);
      StmtsJoin(Combine(acc, InferStmt(ss[0], fns)), ss[1..], fns);
    }
  }

  lemma {:induction false} CasesJoin(acc: EffectRung, cs: seq<SwitchCase>, fns: Rungs)
    ensures InferCases(acc, cs, fns) == JoinAll(acc, CaseNodes(cs), fns)
    decreases |cs|
  {
    hide InferExpr, InferStmt;
    if cs != [] {
      var vs, b := ExprNodes(cs[0].values), [S(cs[0].body)];
      ExprsJoin(acc, cs[0].values, fns);
      JoinAppend(acc, vs, b, fns);
      JoinAppend(acc, vs + b, CaseNodes(cs[1..]), fns);
      assert b[1..] == [];
      CasesJoin(Combine(InferExprs(acc, cs[0].values, fns), InferStmt(cs[0].body, fns)), cs[1..], fns);
    }
  }

  lemma Join1(acc: EffectRung, a: Node, fns: Rungs)
    ensures JoinAll(acc, [a], fns) == Combine(acc, Infer(a, fns))
  {
    hide Infer;
    assert [a][1..] == [];
  }

  lemma Join2(acc: EffectRung, a: Node, b: Node, fns: Rungs)
    ensures JoinAll(acc, [a, b], fns) == Combine(Combine(acc, Infer(a, fns)), Infer(b, fns))
  {
    hide Infer;
    assert [a, b][1..] == [b];
    Join1(Combine(acc, Infer(a, fns)), b, fns);
  }

  lemma Join3(acc: EffectRung, a: Node, b: Node, c: Node, fns: Rungs)
    ensures JoinAll(acc, [a, b, c], fns) == Combine(Combine(Combine(acc, Infer(a, fns)), Infer(b, fns)), Infer(c, fns))
  {
    hide Infer;
    assert [a, b, c][1..] == [b, c];
    Join2(Combine(acc, Infer(a, fns)), b, c, fns);
  }

  lemma CallJoins(callee: Expr, args: seq<Expr>, fns: Rungs)
    ensures var e := Call(callee, args); InferExpr(e, fns) == JoinAll(Own(E(e), fns), Evaluated(E(e)), fns)
  {
    var e := Call(callee, args);
    var c := InferExpr(callee, fns);
    var own := Own(E(e), fns);
    var body := if callee.Function? then [S(callee.body)] else [];
    assert Evaluated(E(e)) == [E(callee)] + (ExprNodes(args) + body);
    JoinAppend(own, [E(callee)], ExprNodes(args) + body, fns);
    Join1(own, E(callee), fns);
    var first := Combine(own, c);
    JoinAppend(first, ExprNodes(args), body, fns);
    if callee.Function? {
      Join1(JoinAll(first, ExprNodes(args), fns), S(callee.body), fns);
      ExprsJoin(Combine(c, InferStmt(callee.body, fns)), args, fns);
      JoinAcc(Combine(c, InferStmt(callee.body, fns)), ExprNodes(args), fns);
      JoinAcc(first, ExprNodes(args), fns);
    } else {
      ExprsJoin(first, args, fns);
      assert InferExpr(e, fns) == InferExprs(first, args, fns);
    }
  }

  predicate HasOnePart(e: Expr)
  {
    e.Assign? || e.Unary? || e.Prefix? || e.Postfix? || e.Get? || e.Spawn? || e.TypeCast? || e.Await? || e.New?
  }

  lemma OnePartJoins(e: Expr, fns: Rungs)
    requires HasOnePart(e)
    ensures InferExpr(e, fns) == JoinAll(Own(E(e), fns), Evaluated(E(e)), fns)
  {
    hide InferExprs, InferPairs, InferStmt, JoinAll, GetSuspends, MethodSuspends;
    Join1(Own(E(e), fns), ExprParts(e)[0], fns);
    assert Evaluated(E(e)) == ExprParts(e) == [ExprParts(e)[0]];
  }

  lemma JoinNone(acc: EffectRung, fns: Rungs)
    ensures JoinAll(acc, [], fns) == acc
  {
  }

  lemma MorePartsJoin(e: Expr, fns: Rungs)
    requires !HasOnePart(e) && !e.Call?
    ensures InferExpr(e, fns) == JoinAll(Own(E(e), fns), Evaluated(E(e)), fns)
  {
    hide InferExprs, InferPairs, InferStmt, JoinAll;
    var own := Own(E(e), fns);
    JoinNone(own, fns);
    assert Evaluated(E(e)) == ExprParts(e);
    match e {
      case Literal(_) =>
      case Variable(_, _) =>
      case Function(_, _, _, _) =>
      case Binary(l, _, r) => Join2(own, E(l), E(r), fns);
      case Logical(l, _, r) => Join2(own, E(l), E(r), fns);
      case Set(l, _, r) => Join2(own, E(l), E(r), fns);
      case GetIndex(l, r) => Join2(own, E(l), E(r), fns);
      case Ternary(a, b, c) => Join3(own, E(a), E(b), E(c), fns);
      case SetIndex(a, b, c) => Join3(own, E(a), E(b), E(c), fns);
      case Array(es) => ExprsJoin(own, es, fns);
      case Object(ps) => PairsJoin(own, ps, fns);
      case StructInst(_, ps, _) => PairsJoin(own, ps, fns);
    }
  }

  lemma ExprJoins(e: Expr, fns: Rungs)
    ensures InferExpr(e, fns) == JoinAll(Own(E(e), fns), Evaluated(E(e)), fns)
  {
    hide InferExpr, JoinAll, Own, Evaluated;
    if e.Call? {
      CallJoins(e.callee, e.args, fns);
    } else if HasOnePart(e) {
      OnePartJoins(e, fns);
    } else {
      MorePartsJoin(e, fns);
    }
  }

  lemma OptJoin(acc: EffectRung, s: Option<Stmt>, fns: Rungs)
    ensures JoinAll(acc, OptNodes(s), fns) == Combine(acc, InferOpt(s, fns))
  {
    hide InferStmt;
    if s.Some? {
      Join1(acc, S(s.value), fns);
    }
  }

  lemma CatchJoin(acc: EffectRung, s: Option<(string, Stmt)>, fns: Rungs)
    ensures JoinAll(acc, CatchNodes(s), fns) == if s.Some? then Combine(acc, InferStmt(s.value.1, fns)) else acc
  {
    hide InferStmt;
    if s.Some? {
      Join1(acc, S(s.value.1), fns);
    }
  }

  // The statements with lists of parts.
  lemma CompoundJoins(t: Stmt, fns: Rungs)
    requires t.If? || t.Try? || t.Switch?
    ensures InferStmt(t, fns) == JoinAll(Own(S(t), fns), Evaluated(S(t)), fns)
  {
    hide InferExpr, InferCases, InferOpt, JoinAll, CaseNodes, OptNodes, CatchNodes;
    assert Own(S(t), fns) == Pure && Evaluated(S(t)) == StmtParts(t);
    hide Own, Evaluated;
    match t {
      case If(c, a, f) =>
        JoinAppend(Pure, [E(c), S(a)], OptNodes(f), fns);
        Join2(Pure, E(c), S(a), fns);
        OptJoin(JoinAll(Pure, [E(c), S(a)], fns), f, fns);
      case Try(a, c, f) =>
        JoinAppend(Pure, [S(a)] + CatchNodes(c), OptNodes(f), fns);
        JoinAppend(Pure, [S(a)], CatchNodes(c), fns);
        Join1(Pure, S(a), fns);
        CatchJoin(JoinAll(Pure, [S(a)], fns), c, fns);
        OptJoin(JoinAll(Pure, [S(a)] + CatchNodes(c), fns), f, fns);
      case Switch(e, cs, d) =>
        JoinAppend(Pure, [E(e)] + CaseNodes(cs), OptNodes(d), fns);
        JoinAppend(Pure, [E(e)], CaseNodes(cs), fns);
        Join1(Pure, E(e), fns);
        CasesJoin(JoinAll(Pure, [E(e)], fns), cs, fns);
        OptJoin(JoinAll(Pure, [E(e)] + CaseNodes(cs), fns), d, fns);
    }
  }

  lemma SimpleJoins(t: Stmt, fns: Rungs)
    requires !t.If? && !t.Try? && !t.Switch?
    ensures InferStmt(t, fns) == JoinAll(Own(S(t), fns), Evaluated(S(t)), fns)
  {
    hide InferExpr, InferExprs, InferStmts, InferCases, InferOpt, JoinAll, CaseNodes, OptNodes, CatchNodes;
    var own := Own(S(t), fns);
    JoinNone(own, fns);
    assert Evaluated(S(t)) == StmtParts(t);
    match t {
      case ExprStmt(e) => Join1(own, E(e), fns);
      case Print(e) => Join1(own, E(e), fns);
      case Throw(e) => Join1(own, E(e), fns);
      case VarDecl(_, _, init, _) => Join1(own, E(init), fns);
      case Export(inner) => Join1(own, S(inner), fns);
      case Concurrent(b) => Join1(own, S(b), fns);
      case Sync(b) => Join1(own, S(b), fns);
      case Return(r, _) => if r.Some? { Join1(own, E(r.value), fns); }
      case Block(ss) => StmtsJoin(own, ss, fns);
      case While(c, b) => Join2(own, E(c), S(b), fns);
      case ForIn(_, iter, b) => Join2(own, E(iter), S(b), fns);
      case For(_, start, end, b) => Join3(own, E(start), E(end), S(b), fns);
      case _ =>
    }
  }

  lemma StmtJoins(t: Stmt, fns: Rungs)
    ensures InferStmt(t, fns) == JoinAll(Own(S(t), fns), Evaluated(S(t)), fns)
  {
    hide InferStmt, JoinAll, Own, Evaluated;
    if t.If? || t.Try? || t.Switch? {
      CompoundJoins(t, fns);
    } else {
      SimpleJoins(t, fns);
    }
  }

  // The rung of a node is the join of what it adds itself and of the rungs of what it evaluates.
  lemma InferIsJoin(n: Node, fns: Rungs)
    ensures Infer(n, fns) == JoinAll(Own(n, fns), Evaluated(n), fns)
  {
    match n case E(e) => ExprJoins(e, fns); case S(t) => StmtJoins(t, fns);
  }

  lemma {:induction false} JoinAbove(acc: EffectRung, ns: seq<Node>, fns: Rungs)
    ensures Le(acc, JoinAll(acc, ns, fns))
    ensures forall i :: 0 <= i < |ns| ==> Le(Infer(ns[i], fns), JoinAll(acc, ns, fns))
    decreases |ns|
  {
    hide Infer;
    if ns != [] {
      JoinAbove(Combine(acc, Infer(ns[0], fns)), ns[1..], fns);
      forall i | 0 <= i < |ns| ensures Le(Infer(ns[i], fns), JoinAll(acc, ns, fns)) {
        if i > 0 {
          assert ns[i] == ns[1..][i - 1];
        }
      }
    }
  }

  // Whatever is evaluated has at most the rung of the whole.
  lemma RungCovers(n: Node, fns: Rungs)
    ensures Le(Own(n, fns), Infer(n, fns))
    ensures forall m :: m in Evaluated(n) ==> Le(Infer(m, fns), Infer(n, fns))
  {
    hide Infer, Own, Evaluated;
    InferIsJoin(n, fns);
    JoinAbove(Own(n, fns), Evaluated(n), fns);
  }

  // ---------------------------------------------------------------- monotonicity

  ghost predicate Below(a: Rungs, b: Rungs)
  {
    forall name :: Le(RungOf(a, name), RungOf(b, name))
  }

  // Where x reaches height h, so does y.
  predicate LeAt(h: nat, x: EffectRung, y: EffectRung)
  {
    Height(x) >= h ==> Height(y) >= h
  }

  ghost predicate BelowAt(h: nat, a: Rungs, b: Rungs)
  {
    forall name :: LeAt(h, RungOf(a, name), RungOf(b, name))
  }

  lemma {:induction false} JoinReaches(h: nat, x: EffectRung, y: EffectRung, ns: seq<Node>, a: Rungs, b: Rungs)
    requires LeAt(h, x, y) && forall i :: 0 <= i < |ns| ==> LeAt(h, Infer(ns[i], a), Infer(ns[i], b))
    ensures LeAt(h, JoinAll(x, ns, a), JoinAll(y, ns, b))
    decreases |ns|
  {
    hide Infer;
    if ns != [] {
      JoinReaches(h, Combine(x, Infer(ns[0], a)), Combine(y, Infer(ns[0], b)), ns[1..], a, b);
    }
  }

  // Everything evaluated is structurally smaller, so induction on syntax reaches it.
  lemma ExprEvaluatedSmaller(e: Expr, i: nat)
    requires i < |Evaluated(E(e))|
    ensures ExprAbove(e, Evaluated(E(e))[i])
  {
    if i < |Parts(E(e))| {
      ExprPartSmaller(e, i);
      assert Children(E(e))[i] == Evaluated(E(e))[i];
    }
  }

  lemma StmtEvaluatedSmaller(t: Stmt, i: nat)
    requires i < |Evaluated(S(t))|
    ensures StmtAbove(t, Evaluated(S(t))[i])
  {
    StmtPartSmaller(t, i);
    assert Children(S(t))[i] == Evaluated(S(t))[i];
  }

  lemma NodeReaches(h: nat, n: Node, a: Rungs, b: Rungs)
    requires BelowAt(h, a, b) && forall i :: 0 <= i < |Evaluated(n)| ==>
      LeAt(h, Infer(Evaluated(n)[i], a), Infer(Evaluated(n)[i], b))
    ensures LeAt(h, Infer(n, a), Infer(n, b))
  {
    hide Evaluated, Infer, JoinAll, GetSuspends, MethodSuspends;
    InferIsJoin(n, a);
    InferIsJoin(n, b);
    JoinReaches(h, Own(n, a), Own(n, b), Evaluated(n), a, b);
  }

  // Whether a rung reaches a height depends only on which names reach it.
  lemma {:induction false} ExprReaches(h: nat, e: Expr, a: Rungs, b: Rungs)
    requires BelowAt(h, a, b)
    ensures LeAt(h, InferExpr(e, a), InferExpr(e, b))
    decreases e
  {
    hide Evaluated, InferExpr, InferStmt;
    var ns := Evaluated(E(e));
    forall i | 0 <= i < |ns| ensures LeAt(h, Infer(ns[i], a), Infer(ns[i], b)) {
      ExprEvaluatedSmaller(e, i);
      match ns[i] case E(x) => ExprReaches(h, x, a, b); case S(s) => StmtReaches(h, s, a, b);
    }
    NodeReaches(h, E(e), a, b);
  }

  lemma {:induction false} StmtReaches(h: nat, t: Stmt, a: Rungs, b: Rungs)
    requires BelowAt(h, a, b)
    ensures LeAt(h, InferStmt(t, a), InferStmt(t, b))
    decreases t
  {
    hide Evaluated, InferExpr, InferStmt;
    var ns := Evaluated(S(t));
    forall i | 0 <= i < |ns| ensures LeAt(h, Infer(ns[i], a), Infer(ns[i], b)) {
      StmtEvaluatedSmaller(t, i);
      match ns[i] case E(x) => ExprReaches(h, x, a, b); case S(s) => StmtReaches(h, s, a, b);
    }
    NodeReaches(h, S(t), a, b);
  }

  lemma BelowEverywhere(a: Rungs, b: Rungs, h: nat)
    requires Below(a, b)
    ensures BelowAt(h, a, b)
  {
    forall name ensures LeAt(h, RungOf(a, name), RungOf(b, name)) {
      assert Le(RungOf(a, name), RungOf(b, name));
    }
  }

  lemma ExprMonotone(e: Expr, a: Rungs, b: Rungs)
    requires Below(a, b)
    ensures Le(InferExpr(e, a), InferExpr(e, b))
  {
    hide InferExpr;
    var h := Height(InferExpr(e, a));
    BelowEverywhere(a, b, h);
    ExprReaches(h, e, a, b);
  }

  lemma StmtMonotone(t: Stmt, a: Rungs, b: Rungs)
    requires Below(a, b)
    ensures Le(InferStmt(t, a), InferStmt(t, b))
  {
    hide InferStmt;
    var h := Height(InferStmt(t, a));
    BelowEverywhere(a, b, h);
    StmtReaches(h, t, a, b);
  }

  // ---------------------------------------------------------------- the functions of a program

  // The bodies whose rungs are inferred; a method goes by "Struct.method".
  datatype Program = Program(fns: seq<(string, Stmt)>, methods: seq<(string, Stmt)>)

  function CollectFns(s: Stmt): seq<(string, Stmt)>
    decreases s, 1
  {
    match s
    case VarDecl(name, _, init, _) => if init.Function? then [(name, init.body)] else []
    case Export(inner) => CollectFns(inner)
    case Block(ss) => CollectFnsOf(ss)
    case Sync(inner) => CollectFns(inner)
    case Concurrent(inner) => CollectFns(inner)
    case _ => []
  }

  function CollectFnsOf(ss: seq<Stmt>): seq<(string, Stmt)>
    decreases ss, 0
  {
    if ss == [] then [] else CollectFns(ss[0]) + CollectFnsOf(ss[1..])
  }

  function CollectMethods(s: Stmt): seq<(string, Stmt)>
    decreases s, 1
  {
    match s
    case Struct(name, _, methods, _) =>
      seq(|methods|, i requires 0 <= i < |methods| => (name + "." + methods[i].name, methods[i].body))
    case Export(inner) => CollectMethods(inner)
    case Block(ss) => CollectMethodsOf(ss)
    case Sync(inner) => CollectMethods(inner)
    case Concurrent(inner) => CollectMethods(inner)
    case _ => []
  }

  function CollectMethodsOf(ss: seq<Stmt>): seq<(string, Stmt)>
    decreases ss, 0
  {
    if ss == [] then [] else CollectMethods(ss[0]) + CollectMethodsOf(ss[1..])
  }

  function Collect(ss: seq<Stmt>): Program
  {
    Program(CollectFnsOf(ss), CollectMethodsOf(ss))
  }

  function Names(bs: seq<(string, Stmt)>): set<string>
  {
    set i | 0 <= i < |bs| :: bs[i].0
  }

  // ---------------------------------------------------------------- one round of the iteration

  function Raise(m: Rungs, name: string, r: EffectRung): Rungs
  {
    if Height(r) > Height(RungOf(m, name)) then m[name := r] else m
  }

  function RoundFns(fns: Rungs, bs: seq<(string, Stmt)>): Rungs
    decreases |bs|
  {
    if bs == [] then fns else RoundFns(Raise(fns, bs[0].0, InferStmt(bs[0].1, fns)), bs[1..])
  }

  function RoundMethods(methods: Rungs, fns: Rungs, bs: seq<(string, Stmt)>): Rungs
    decreases |bs|
  {
    if bs == [] then methods else RoundMethods(Raise(methods, bs[0].0, InferStmt(bs[0].1, fns)), fns, bs[1..])
  }

  function Round(fe: FunctionEffects, p: Program): FunctionEffects
  {
    var fns := RoundFns(fe.functions, p.fns);
    FunctionEffects(fns, RoundMethods(fe.methods, fns, p.methods))
  }

  // Collected names that have no rung yet get the lowest.
  function WithNames(m: Rungs, bs: seq<(string, Stmt)>): (r: Rungs)
    ensures forall name :: RungOf(r, name) == RungOf(m, name)
    decreases |bs|
  {
    if bs == [] then m else WithNames(if bs[0].0 in m then m else m[bs[0].0 := Pure], bs[1..])
  }

  function Start(p: Program): FunctionEffects
  {
    FunctionEffects(WithNames(Seeds(), p.fns), WithNames(map[], p.methods))
  }

  function Rounds(p: Program, k: nat): FunctionEffects
  {
    if k == 0 then Start(p) else Round(Rounds(p, k - 1), p)
  }

  // ---------------------------------------------------------------- solutions

  ghost predicate CoversAll(m: Rungs, fns: Rungs, bs: seq<(string, Stmt)>)
  {
    forall i :: 0 <= i < |bs| ==> Le(InferStmt(bs[i].1, fns), RungOf(m, bs[i].0))
  }

  // Rungs above the seeds under which no body does more than its function's rung says.
  ghost predicate Solves(fe: FunctionEffects, p: Program)
  {
    Below(Seeds(), fe.functions) && CoversAll(fe.functions, fe.functions, p.fns)
      && CoversAll(fe.methods, fe.functions, p.methods)
  }

  ghost predicate BelowBoth(a: FunctionEffects, b: FunctionEffects)
  {
    Below(a.functions, b.functions) && Below(a.methods, b.methods)
  }

  ghost predicate LeastSolution(fe: FunctionEffects, p: Program)
  {
    Solves(fe, p) && forall t :: Solves(t, p) ==> BelowBoth(fe, t)
  }

  lemma RaiseRung(m: Rungs, name: string, r: EffectRung, other: string)
    ensures RungOf(Raise(m, name, r), other) == if other == name then Combine(RungOf(m, name), r) else RungOf(m, other)
  {
  }

  lemma RaiseBelow(m: Rungs, name: string, r: EffectRung, top: Rungs)
    ensures Below(m, Raise(m, name, r))
    ensures Below(m, top) && Le(r, RungOf(top, name)) ==> Below(Raise(m, name, r), top)
  {
    forall other ensures RungOf(Raise(m, name, r), other) == if other == name then Combine(RungOf(m, name), r)
      else RungOf(m, other) {
      RaiseRung(m, name, r, other);
    }
  }

  // A round only raises, and stays below every solution.
  lemma {:induction false} RoundFnsBetween(fns: Rungs, bs: seq<(string, Stmt)>, top: Rungs)
    ensures Below(fns, RoundFns(fns, bs))
    ensures Below(fns, top) && CoversAll(top, top, bs) ==> Below(RoundFns(fns, bs), top)
    decreases |bs|
  {
    hide InferStmt, Raise;
    if bs != [] {
      var r := InferStmt(bs[0].1, fns);
      RaiseBelow(fns, bs[0].0, r, top);
      if Below(fns, top) {
        StmtMonotone(bs[0].1, fns, top);
      }
      RoundFnsBetween(Raise(fns, bs[0].0, r), bs[1..], top);
    }
  }

  lemma {:induction false} RoundMethodsBetween(methods: Rungs, fns: Rungs, bs: seq<(string, Stmt)>, top: Rungs,
      topFns: Rungs)
    ensures Below(methods, RoundMethods(methods, fns, bs))
    ensures Below(methods, top) && Below(fns, topFns) && CoversAll(top, topFns, bs) ==>
      Below(RoundMethods(methods, fns, bs), top)
    decreases |bs|
  {
    hide InferStmt, Raise;
    if bs != [] {
      var r := InferStmt(bs[0].1, fns);
      RaiseBelow(methods, bs[0].0, r, top);
      if Below(fns, topFns) {
        StmtMonotone(bs[0].1, fns, topFns);
      }
      RoundMethodsBetween(Raise(methods, bs[0].0, r), fns, bs[1..], top, topFns);
    }
  }

  lemma {:induction false} RoundsBetween(p: Program, k: nat, t: FunctionEffects)
    ensures Below(Seeds(), Rounds(p, k).functions)
    ensures Solves(t, p) ==> BelowBoth(Rounds(p, k), t)
    decreases k
  {
    hide RoundFns, RoundMethods, CoversAll, Seeds;
    if k > 0 {
      var fe := Rounds(p, k - 1);
      RoundsBetween(p, k - 1, t);
      RoundFnsBetween(fe.functions, p.fns, t.functions);
      RoundMethodsBetween(fe.methods, RoundFns(fe.functions, p.fns), p.methods, t.methods, t.functions);
    }
  }

  // A round that changes nothing has found a solution.
  lemma {:induction false} FnsStable(fns: Rungs, bs: seq<(string, Stmt)>)
    requires RoundFns(fns, bs) == fns
    ensures CoversAll(fns, fns, bs)
    decreases |bs|
  {
    hide InferStmt;
    if bs != [] {
      var r := InferStmt(bs[0].1, fns);
      var next := Raise(fns, bs[0].0, r);
      RoundFnsBetween(next, bs[1..], fns);
      RaiseRung(fns, bs[0].0, r, bs[0].0);
      assert Le(RungOf(next, bs[0].0), RungOf(fns, bs[0].0));
      assert next == fns;
      FnsStable(fns, bs[1..]);
      forall i | 0 <= i < |bs| ensures Le(InferStmt(bs[i].1, fns), RungOf(fns, bs[i].0)) {
        if i > 0 {
          assert bs[i] == bs[1..][i - 1];
        }
      }
    }
  }

  lemma {:induction false} MethodsStable(methods: Rungs, fns: Rungs, bs: seq<(string, Stmt)>)
    requires RoundMethods(methods, fns, bs) == methods
    ensures CoversAll(methods, fns, bs)
    decreases |bs|
  {
    hide InferStmt;
    if bs != [] {
      var r := InferStmt(bs[0].1, fns);
      var next := Raise(methods, bs[0].0, r);
      RoundMethodsBetween(next, fns, bs[1..], methods, fns);
      RaiseRung(methods, bs[0].0, r, bs[0].0);
      assert Le(RungOf(next, bs[0].0), RungOf(methods, bs[0].0));
      assert next == methods;
      MethodsStable(methods, fns, bs[1..]);
      forall i | 0 <= i < |bs| ensures Le(InferStmt(bs[i].1, fns), RungOf(methods, bs[i].0)) {
        if i > 0 {
          assert bs[i] == bs[1..][i - 1];
        }
      }
    }
  }

  lemma StableSolves(p: Program, k: nat)
    requires Rounds(p, k + 1) == Rounds(p, k)
    ensures LeastSolution(Rounds(p, k), p)
  {
    hide RoundFns, RoundMethods, CoversAll, Seeds;
    var fe := Rounds(p, k);
    RoundsBetween(p, k, fe);
    assert Round(fe, p) == fe;
    FnsStable(fe.functions, p.fns);
    MethodsStable(fe.methods, fe.functions, p.methods);
    forall t | Solves(t, p) ensures BelowBoth(fe, t) {
      RoundsBetween(p, k, t);
    }
  }

  // ---------------------------------------------------------------- how many rounds it takes

  // The names with a rung of at least h.
  function AtLeast(m: Rungs, names: set<string>, h: nat): set<string>
  {
    set name | name in names && Height(RungOf(m, name)) >= h
  }

  function Weight(m: Rungs, names: set<string>): nat
  {
    |AtLeast(m, names, 1)| + |AtLeast(m, names, 2)|
  }

  lemma SubsetSize(a: set<string>, b: set<string>)
    requires a <= b
    ensures |a| <= |b| && (a != b ==> |a| < |b|)
  {
    if a != b {
      assert |b - a| > 0 by { var x :| x in b - a; }
      assert b == a + (b - a);
    }
  }

  lemma WeightBounds(m: Rungs, names: set<string>)
    ensures Weight(m, names) <= 2 * |names|
  {
    SubsetSize(AtLeast(m, names, 1), names);
    SubsetSize(AtLeast(m, names, 2), names);
  }

  // Raising never loses weight, and gains some when a name's rung really rises.
  lemma WeightGrows(a: Rungs, b: Rungs, names: set<string>, name: string)
    requires Below(a, b)
    ensures Weight(a, names) <= Weight(b, names)
    ensures name in names && RungOf(a, name) != RungOf(b, name) ==> Weight(a, names) < Weight(b, names)
  {
    SubsetSize(AtLeast(a, names, 1), AtLeast(b, names, 1));
    SubsetSize(AtLeast(a, names, 2), AtLeast(b, names, 2));
    if name in names && RungOf(a, name) != RungOf(b, name) {
      var h := Height(RungOf(b, name));
      assert name in AtLeast(b, names, h) && name !in AtLeast(a, names, h);
    }
  }

  function TotalWeight(fe: FunctionEffects, p: Program): nat
  {
    Weight(fe.functions, Names(p.fns)) + Weight(fe.methods, Names(p.methods))
  }

  // How many names a program declares.
  function NameCount(p: Program): nat
  {
    |Names(p.fns)| + |Names(p.methods)|
  }

  // Every declared function and method gets a rung to start from.
  method Initialize(p: Program) returns (fe: FunctionEffects)
    ensures fe == Start(p)
  {
    hide Seeds;
    var functions, methods := Seeds(), map[];
    assert p.fns[0..] == p.fns && p.methods[0..] == p.methods;
    for i := 0 to |p.fns|
      invariant WithNames(functions, p.fns[i..]) == WithNames(Seeds(), p.fns)
    {
      assert p.fns[i..][1..] == p.fns[i + 1..];
      if p.fns[i].0 !in functions {
        functions := functions[p.fns[i].0 := Pure];
      }
    }
    for i := 0 to |p.methods|
      invariant WithNames(methods, p.methods[i..]) == WithNames(map[], p.methods)
    {
      assert p.methods[i..][1..] == p.methods[i + 1..];
      if p.methods[i].0 !in methods {
        methods := methods[p.methods[i].0 := Pure];
      }
    }
    fe := FunctionEffects(functions, methods);
  }

  lemma RaiseWeighs(m: Rungs, name: string, r: EffectRung, names: set<string>)
    requires Height(r) > Height(RungOf(m, name)) && name in names
    ensures Raise(m, name, r) != m && Below(m, Raise(m, name, r)) && Weight(m, names) < Weight(Raise(m, name, r), names)
  {
    hide Weight;
    RaiseBelow(m, name, r, m);
    RaiseRung(m, name, r, name);
    WeightGrows(m, Raise(m, name, r), names, name);
  }

  lemma RaiseIs(m: Rungs, name: string, r: EffectRung)
    ensures Raise(m, name, r) == if Height(r) > Height(RungOf(m, name)) then m[name := r] else m
  {
  }

  method OneRoundFns(fns: Rungs, bs: seq<(string, Stmt)>) returns (fns': Rungs, changed: bool)
    ensures fns' == RoundFns(fns, bs) && (!changed ==> fns' == fns)
    ensures if changed then Weight(fns, Names(bs)) < Weight(fns', Names(bs))
      else Weight(fns, Names(bs)) == Weight(fns', Names(bs))
  {
    hide InferStmt, Weight, Raise;
    fns', changed := fns, false;
    assert bs[0..] == bs;
    for i := 0 to |bs|
      invariant RoundFns(fns', bs[i..]) == RoundFns(fns, bs) && (!changed ==> fns' == fns)
      invariant if changed then Weight(fns, Names(bs)) < Weight(fns', Names(bs))
        else Weight(fns, Names(bs)) == Weight(fns', Names(bs))
    {
      assert bs[i..][0] == bs[i] && bs[i..][1..] == bs[i + 1..];
      var name := bs[i].0;
      var current := RungOf(fns', name);
      var inferred := InferStmt(bs[i].1, fns');
      RaiseIs(fns', name, inferred);
      if Height(inferred) > Height(current) {
        RaiseWeighs(fns', name, inferred, Names(bs));
        fns' := fns'[name := inferred];
        changed := true;
      }
    }
  }

  method OneRoundMethods(methods: Rungs, fns: Rungs, bs: seq<(string, Stmt)>) returns (methods': Rungs, changed: bool)
    ensures methods' == RoundMethods(methods, fns, bs) && (!changed ==> methods' == methods)
    ensures if changed then Weight(methods, Names(bs)) < Weight(methods', Names(bs))
      else Weight(methods, Names(bs)) == Weight(methods', Names(bs))
  {
    hide InferStmt, Weight, Raise;
    methods', changed := methods, false;
    assert bs[0..] == bs;
    for i := 0 to |bs|
      invariant RoundMethods(methods', fns, bs[i..]) == RoundMethods(methods, fns, bs)
        && (!changed ==> methods' == methods)
      invariant if changed then Weight(methods, Names(bs)) < Weight(methods', Names(bs))
        else Weight(methods, Names(bs)) == Weight(methods', Names(bs))
    {
      assert bs[i..][0] == bs[i] && bs[i..][1..] == bs[i + 1..];
      var name := bs[i].0;
      var current := RungOf(methods', name);
      var inferred := InferStmt(bs[i].1, fns);
      RaiseIs(methods', name, inferred);
      if Height(inferred) > Height(current) {
        RaiseWeighs(methods', name, inferred, Names(bs));
        methods' := methods'[name := inferred];
        changed := true;
      }
    }
  }

  // No body asks for height h where its name does not have it.
  ghost predicate ClosedAt(h: nat, fns: Rungs, bs: seq<(string, Stmt)>)
  {
    forall i :: 0 <= i < |bs| ==> LeAt(h, InferStmt(bs[i].1, fns), RungOf(fns, bs[i].0))
  }

  // Rungs that do not reach beyond closed ones at a height do not after a round either.
  lemma {:induction false} ClosedStays(h: nat, fns: Rungs, bs: seq<(string, Stmt)>, top: Rungs)
    requires BelowAt(h, fns, top) && ClosedAt(h, top, bs)
    ensures BelowAt(h, RoundFns(fns, bs), top)
    decreases |bs|
  {
    hide InferStmt, Raise;
    if bs != [] {
      var r := InferStmt(bs[0].1, fns);
      var next := Raise(fns, bs[0].0, r);
      StmtReaches(h, bs[0].1, fns, top);
      forall name ensures LeAt(h, RungOf(next, name), RungOf(top, name)) {
        RaiseRung(fns, bs[0].0, r, name);
        assert LeAt(h, RungOf(fns, name), RungOf(top, name));
      }
      forall i | 0 <= i < |bs[1..]| ensures LeAt(h, InferStmt(bs[1..][i].1, top), RungOf(top, bs[1..][i].0)) {
        assert bs[1..][i] == bs[i + 1];
      }
      ClosedStays(h, next, bs[1..], top);
    }
  }

  lemma ClosedNext(h: nat, fns: Rungs, bs: seq<(string, Stmt)>)
    requires ClosedAt(h, fns, bs)
    ensures ClosedAt(h, RoundFns(fns, bs), bs)
  {
    hide InferStmt, RoundFns;
    var next := RoundFns(fns, bs);
    ClosedStays(h, fns, bs, fns);
    RoundFnsBetween(fns, bs, fns);
    forall i | 0 <= i < |bs| ensures LeAt(h, InferStmt(bs[i].1, next), RungOf(next, bs[i].0)) {
      StmtReaches(h, bs[i].1, next, fns);
      assert LeAt(h, InferStmt(bs[i].1, fns), RungOf(fns, bs[i].0));
      assert Le(RungOf(fns, bs[i].0), RungOf(next, bs[i].0));
    }
  }

  // After a round every name has at least the rung its body had before it.
  lemma {:induction false} RoundCovers(before: Rungs, fns: Rungs, bs: seq<(string, Stmt)>)
    requires Below(before, fns)
    ensures CoversAll(RoundFns(fns, bs), before, bs)
    decreases |bs|
  {
    hide InferStmt, Raise;
    if bs != [] {
      var r := InferStmt(bs[0].1, fns);
      var next := Raise(fns, bs[0].0, r);
      RaiseBelow(fns, bs[0].0, r, next);
      RaiseRung(fns, bs[0].0, r, bs[0].0);
      StmtMonotone(bs[0].1, before, fns);
      RoundCovers(before, next, bs[1..]);
      RoundFnsBetween(next, bs[1..], next);
      forall i | 0 <= i < |bs| ensures Le(InferStmt(bs[i].1, before), RungOf(RoundFns(fns, bs), bs[i].0)) {
        if i > 0 {
          assert bs[i] == bs[1..][i - 1];
        } else {
          assert Le(RungOf(next, bs[0].0), RungOf(RoundFns(next, bs[1..]), bs[0].0));
        }
      }
    }
  }

  // Where a height is not closed, a round takes a new name to it.
  lemma OpenGrows(h: nat, fns: Rungs, bs: seq<(string, Stmt)>)
    requires !ClosedAt(h, fns, bs)
    ensures |AtLeast(fns, Names(bs), h)| < |AtLeast(RoundFns(fns, bs), Names(bs), h)|
  {
    hide InferStmt, RoundFns;
    var next := RoundFns(fns, bs);
    var i :| 0 <= i < |bs| && !LeAt(h, InferStmt(bs[i].1, fns), RungOf(fns, bs[i].0));
    RoundCovers(fns, fns, bs);
    RoundFnsBetween(fns, bs, fns);
    assert Le(InferStmt(bs[i].1, fns), RungOf(next, bs[i].0));
    forall name | name in AtLeast(fns, Names(bs), h) ensures name in AtLeast(next, Names(bs), h) {
      assert Le(RungOf(fns, name), RungOf(next, name));
    }
    assert bs[i].0 in Names(bs) && bs[i].0 in AtLeast(next, Names(bs), h) && bs[i].0 !in AtLeast(fns, Names(bs), h);
    SubsetSize(AtLeast(fns, Names(bs), h), AtLeast(next, Names(bs), h));
  }

  lemma {:induction false} HeightAfter(p: Program, h: nat, k: nat)
    ensures var fns := Rounds(p, k).functions; ClosedAt(h, fns, p.fns) || |AtLeast(fns, Names(p.fns), h)| >= k
    decreases k
  {
    hide InferStmt, RoundFns, RoundMethods, Start, ClosedAt;
    if k > 0 {
      var fns := Rounds(p, k - 1).functions;
      HeightAfter(p, h, k - 1);
      assert Rounds(p, k).functions == RoundFns(fns, p.fns);
      if ClosedAt(h, fns, p.fns) {
        ClosedNext(h, fns, p.fns);
      } else {
        OpenGrows(h, fns, p.fns);
      }
    }
  }

  // As many rounds as there are functions' names close every height: a height reaches a name for
  // the first time along a path of different names, one round a step.
  lemma ClosedAfter(p: Program, h: nat, k: nat)
    requires |Names(p.fns)| <= k
    ensures ClosedAt(h, Rounds(p, k).functions, p.fns)
  {
    hide InferStmt, Rounds;
    var fns, names := Rounds(p, k).functions, Names(p.fns);
    HeightAfter(p, h, k);
    SubsetSize(AtLeast(fns, names, h), names);
    if AtLeast(fns, names, h) == names {
      forall i | 0 <= i < |p.fns| ensures LeAt(h, InferStmt(p.fns[i].1, fns), RungOf(fns, p.fns[i].0)) {
        assert p.fns[i].0 in names;
      }
    }
  }

  lemma {:induction false} RoundMethodsCovers(methods: Rungs, fns: Rungs, bs: seq<(string, Stmt)>)
    ensures CoversAll(RoundMethods(methods, fns, bs), fns, bs)
    decreases |bs|
  {
    hide InferStmt, Raise;
    if bs != [] {
      var r := InferStmt(bs[0].1, fns);
      var next := Raise(methods, bs[0].0, r);
      RaiseRung(methods, bs[0].0, r, bs[0].0);
      RoundMethodsCovers(next, fns, bs[1..]);
      RoundMethodsBetween(next, fns, bs[1..], next, fns);
      forall i | 0 <= i < |bs| ensures Le(InferStmt(bs[i].1, fns), RungOf(RoundMethods(methods, fns, bs), bs[i].0)) {
        if i > 0 {
          assert bs[i] == bs[1..][i - 1];
        } else {
          assert Le(RungOf(next, bs[0].0), RungOf(RoundMethods(next, fns, bs[1..]), bs[0].0));
        }
      }
    }
  }

  // k rounds solve every program with at most k functions' names.
  lemma RoundsSolve(p: Program, k: nat)
    requires |Names(p.fns)| <= k && k > 0
    ensures LeastSolution(Rounds(p, k), p)
  {
    hide InferStmt, Seeds, RoundFns, RoundMethods, Start;
    var fe := Rounds(p, k);
    forall i | 0 <= i < |p.fns| ensures Le(InferStmt(p.fns[i].1, fe.functions), RungOf(fe.functions, p.fns[i].0)) {
      var h := Height(InferStmt(p.fns[i].1, fe.functions));
      ClosedAfter(p, h, k);
      assert LeAt(h, InferStmt(p.fns[i].1, fe.functions), RungOf(fe.functions, p.fns[i].0));
    }
    RoundMethodsCovers(Rounds(p, k - 1).methods, fe.functions, p.methods);
    RoundsBetween(p, k, fe);
    forall t | Solves(t, p) ensures BelowBoth(fe, t) {
      RoundsBetween(p, k, t);
    }
  }

  // The rungs found are always below the least solution.  They are the least solution when the loop
  // ends because nothing changed, and also when the cap ends it, for up to ten functions' names.
  method InferEffects(stmts: seq<Stmt>) returns (fe: FunctionEffects, ghost rounds: nat, ghost converged: bool)
    ensures rounds <= 10 && fe == Rounds(Collect(stmts), rounds)
    ensures forall t :: Solves(t, Collect(stmts)) ==> BelowBoth(fe, t)
    ensures converged ==> LeastSolution(fe, Collect(stmts))
    ensures !converged ==> rounds == 10
    ensures 2 * NameCount(Collect(stmts)) < 10 ==> converged
    ensures |Names(Collect(stmts).fns)| <= 10 ==> LeastSolution(fe, Collect(stmts))
  {
    hide Seeds, InferStmt, Weight, Solves, BelowBoth, LeastSolution, RoundFns, RoundMethods, Start;
    var p := Collect(stmts);
    fe := Initialize(p);
    rounds, converged := 0, false;
    for i := 0 to 10
      invariant rounds == i && fe == Rounds(p, i) && TotalWeight(fe, p) >= i && !converged
    {
      var fns, changed := OneRoundFns(fe.functions, p.fns);
      var methods, changed' := OneRoundMethods(fe.methods, fns, p.methods);
      if !changed && !changed' {
        assert Rounds(p, i + 1) == Rounds(p, i);
        StableSolves(p, i);
        converged := true;
        break;
      }
      fe := FunctionEffects(fns, methods);
      rounds := rounds + 1;
    }
    WeightBounds(fe.functions, Names(p.fns));
    WeightBounds(fe.methods, Names(p.methods));
    forall t | Solves(t, p) ensures BelowBoth(fe, t) {
      RoundsBetween(p, rounds, t);
    }
    if !converged && |Names(p.fns)| <= 10 {
      RoundsSolve(p, 10);
    }
  }

  lemma NamesTail(bs: seq<(string, Stmt)>)
    requires bs != []
    ensures Names(bs[1..]) <= Names(bs)
  {
    forall name | name in Names(bs[1..]) ensures name in Names(bs) {
      var i :| 0 <= i < |bs[1..]| && bs[1..][i].0 == name;
      assert bs[i + 1].0 == name;
    }
  }

  lemma {:induction false} RoundFnsWeighs(fns: Rungs, bs: seq<(string, Stmt)>, names: set<string>)
    requires Names(bs) <= names
    ensures Weight(fns, names) <= Weight(RoundFns(fns, bs), names)
    ensures RoundFns(fns, bs) != fns ==> Weight(fns, names) < Weight(RoundFns(fns, bs), names)
    decreases |bs|
  {
    hide InferStmt, Weight, Raise;
    if bs != [] {
      assert bs[0].0 in Names(bs);
      NamesTail(bs);
      var r := InferStmt(bs[0].1, fns);
      RaiseIs(fns, bs[0].0, r);
      if Height(r) > Height(RungOf(fns, bs[0].0)) {
        RaiseWeighs(fns, bs[0].0, r, names);
      }
      RoundFnsWeighs(Raise(fns, bs[0].0, r), bs[1..], names);
    }
  }

  lemma {:induction false} RoundMethodsWeighs(methods: Rungs, fns: Rungs, bs: seq<(string, Stmt)>, names: set<string>)
    requires Names(bs) <= names
    ensures Weight(methods, names) <= Weight(RoundMethods(methods, fns, bs), names)
    ensures RoundMethods(methods, fns, bs) != methods ==>
      Weight(methods, names) < Weight(RoundMethods(methods, fns, bs), names)
    decreases |bs|
  {
    hide InferStmt, Weight, Raise;
    if bs != [] {
      assert bs[0].0 in Names(bs);
      NamesTail(bs);
      var r := InferStmt(bs[0].1, fns);
      RaiseIs(methods, bs[0].0, r);
      if Height(r) > Height(RungOf(methods, bs[0].0)) {
        RaiseWeighs(methods, bs[0].0, r, names);
      }
      RoundMethodsWeighs(Raise(methods, bs[0].0, r), fns, bs[1..], names);
    }
  }

  // Without the cap, n names need at most 2n rounds that change something and one that does not.
  lemma {:induction false} RoundsSuffice(p: Program, k: nat) returns (j: nat)
    requires TotalWeight(Rounds(p, k), p) >= k
    ensures k <= j && j <= 2 * NameCount(p) && Rounds(p, j + 1) == Rounds(p, j)
    decreases 2 * NameCount(p) - k
  {
    hide Start, RoundFns, RoundMethods, Weight;
    var fe := Rounds(p, k);
    WeightBounds(fe.functions, Names(p.fns));
    WeightBounds(fe.methods, Names(p.methods));
    if Round(fe, p) == fe {
      j := k;
    } else {
      var next := Rounds(p, k + 1);
      RoundFnsWeighs(fe.functions, p.fns, Names(p.fns));
      RoundMethodsWeighs(fe.methods, next.functions, p.methods, Names(p.methods));
      WeightBounds(next.functions, Names(p.fns));
      WeightBounds(next.methods, Names(p.methods));
      j := RoundsSuffice(p, k + 1);
    }
  }

  // ---------------------------------------------------------------- where the cap cuts the iteration off

  // A chain of functions, each of which calls the next and the last of which calls sleep.
  function FnName(i: nat): string
  {
    seq(i + 1, _ => 'f')
  }

  function Callee(i: nat, k: nat): string
  {
    if i + 1 == k then "sleep" else FnName(i + 1)
  }

  function ChainBody(i: nat, k: nat): Stmt
  {
    Return(Some(Call(Variable(Callee(i, k), NOWHERE), [])), NOWHERE)
  }

  function ChainDecl(i: nat, k: nat): Stmt
  {
    VarDecl(FnName(i), true, Function([], ChainBody(i, k), false, false), NOWHERE)
  }

  function Chain(k: nat): seq<Stmt>
  {
    seq(k, i requires 0 <= i < k => ChainDecl(i, k))
  }

  function ChainFns(k: nat): seq<(string, Stmt)>
  {
    seq(k, i requires 0 <= i < k => (FnName(i), ChainBody(i, k)))
  }

  lemma CallRung(name: string, fns: Rungs)
    ensures InferExpr(Call(Variable(name, NOWHERE), []), fns) == RungOf(fns, name)
  {
    var callee := Variable(name, NOWHERE);
    assert InferExpr(callee, fns) == RungOf(fns, name);
    assert InferExprs(RungOf(fns, name), [], fns) == RungOf(fns, name);
  }

  lemma BodyRung(i: nat, k: nat, fns: Rungs)
    ensures InferStmt(ChainBody(i, k), fns) == RungOf(fns, Callee(i, k))
  {
    CallRung(Callee(i, k), fns);
  }

  lemma NoSeedIsAllF(n: nat)
    requires n < |SUSPENDING + EFFECTFUL + HARMLESS|
    ensures var s := (SUSPENDING + EFFECTFUL + HARMLESS)[n]; |s| > 1 && s[1] != 'f' && s[1] in s
  {
    var s := (SUSPENDING + EFFECTFUL + HARMLESS)[n];
    if n < |SUSPENDING| {
      assert s == SUSPENDING[n];
    } else if n < |SUSPENDING| + |EFFECTFUL| {
      assert s == EFFECTFUL[n - |SUSPENDING|];
    } else {
      assert s == HARMLESS[n - |SUSPENDING| - |EFFECTFUL|];
    }
  }

  lemma NamesApart(i: nat, j: nat)
    ensures FnName(i) == FnName(j) ==> i == j
    ensures FnName(i) !in Seeds() && RungOf(Seeds(), "sleep") == Suspends && FnName(i) != "sleep"
  {
    assert FnName(i) == FnName(j) ==> |FnName(i)| == |FnName(j)|;
    var all := SUSPENDING + EFFECTFUL + HARMLESS;
    forall n: nat | n < |all| ensures all[n] != FnName(i) {
      assert exists c :: c in all[n] && c != 'f' by {
        NoSeedIsAllF(n);
      }
    }
    assert SUSPENDING[3] == "sleep";
  }

  lemma {:induction false} ChainCollected(i: nat, k: nat)
    requires i <= k
    ensures CollectFnsOf(Chain(k)[i..]) == ChainFns(k)[i..] && CollectMethodsOf(Chain(k)[i..]) == []
    decreases k - i
  {
    if i < k {
      ChainCollected(i + 1, k);
      assert Chain(k)[i..][1..] == Chain(k)[i + 1..] && Chain(k)[i..][0] == ChainDecl(i, k);
      assert ChainFns(k)[i..] == [ChainFns(k)[i]] + ChainFns(k)[i + 1..];
    }
  }

  // The functions from cut on are known to suspend; in the middle of a round those before j are
  // a step ahead.
  ghost predicate ChainKnown(fns: Rungs, k: nat, cut: int, j: nat)
  {
    && RungOf(fns, "sleep") == Suspends
    && forall i: nat :: i < k ==>
      RungOf(fns, FnName(i)) == if i >= cut || (i < j && i + 1 >= cut) then Suspends else Pure
  }

  lemma {:induction false} ChainRound(fns: Rungs, k: nat, cut: int, j: nat)
    requires j <= k && cut <= k && ChainKnown(fns, k, cut, j)
    ensures ChainKnown(RoundFns(fns, ChainFns(k)[j..]), k, cut - 1, 0)
    decreases k - j
  {
    hide InferStmt, FnName, Seeds;
    if j < k {
      var bs := ChainFns(k)[j..];
      assert bs[0] == (FnName(j), ChainBody(j, k)) && bs[1..] == ChainFns(k)[j + 1..];
      BodyRung(j, k, fns);
      var r := RungOf(fns, Callee(j, k));
      var next := Raise(fns, FnName(j), r);
      forall i: nat | i < k
        ensures RungOf(next, FnName(i)) == if i == j then Combine(RungOf(fns, FnName(j)), r)
        else RungOf(fns, FnName(i)) {
        NamesApart(i, j);
        RaiseRung(fns, FnName(j), r, FnName(i));
      }
      NamesApart(j, j);
      RaiseRung(fns, FnName(j), r, "sleep");
      ChainRound(next, k, cut, j + 1);
    }
  }

  lemma {:induction false} ChainRounds(k: nat, r: nat)
    ensures ChainKnown(Rounds(Collect(Chain(k)), r).functions, k, k - r, 0)
    ensures Rounds(Collect(Chain(k)), r).methods == map[]
    decreases r
  {
    hide InferStmt, FnName, Seeds, RoundFns;
    ChainCollected(0, k);
    assert Chain(k)[0..] == Chain(k) && ChainFns(k)[0..] == ChainFns(k);
    if r == 0 {
      forall i: nat | i < k ensures RungOf(Start(Collect(Chain(k))).functions, FnName(i)) == Pure {
        NamesApart(i, i);
      }
      NamesApart(0, 0);
    } else {
      ChainRounds(k, r - 1);
      ChainRound(Rounds(Collect(Chain(k)), r - 1).functions, k, k - (r - 1), 0);
    }
  }

  lemma {:induction false} ChainSuspends(k: nat, fe: FunctionEffects, i: nat)
    requires i < k && Solves(fe, Collect(Chain(k)))
    ensures RungOf(fe.functions, FnName(i)) == Suspends
    decreases k - i
  {
    hide InferStmt, FnName, Seeds;
    ChainCollected(0, k);
    assert Chain(k)[0..] == Chain(k) && ChainFns(k)[0..] == ChainFns(k);
    BodyRung(i, k, fe.functions);
    assert Le(InferStmt(ChainFns(k)[i].1, fe.functions), RungOf(fe.functions, ChainFns(k)[i].0));
    if i + 1 < k {
      ChainSuspends(k, fe, i + 1);
    } else {
      NamesApart(i, i);
      assert Le(RungOf(Seeds(), "sleep"), RungOf(fe.functions, "sleep"));
    }
  }

  // Ten rounds solve a chain exactly when it has at most ten functions; in a longer one the first
  // function is still taken for pure.
  lemma ChainExact(k: nat)
    requires k > 0
    ensures Solves(Rounds(Collect(Chain(k)), 10), Collect(Chain(k))) <==> k <= 10
    ensures k > 10 ==> RungOf(Rounds(Collect(Chain(k)), 10).functions, FnName(0)) == Pure
  {
    hide InferStmt, FnName, Seeds, RoundFns, Rounds;
    var p := Collect(Chain(k));
    var fe := Rounds(p, 10);
    ChainRounds(k, 10);
    if k > 10 {
      if Solves(fe, p) {
        ChainSuspends(k, fe, 0);
      }
    } else {
      ChainCollected(0, k);
      assert Chain(k)[0..] == Chain(k) && ChainFns(k)[0..] == ChainFns(k);
      RoundsBetween(p, 10, fe);
      forall i | 0 <= i < k
        ensures Le(InferStmt(ChainFns(k)[i].1, fe.functions), RungOf(fe.functions, ChainFns(k)[i].0)) {
      }
    }
  }

  function FirstFns(k: nat): set<string>
  {
    set i: nat | i < k :: FnName(i)
  }

  lemma FirstNames(k: nat)
    ensures Names(ChainFns(k)) == FirstFns(k)
  {
    hide FnName;
    forall name | name in FirstFns(k) ensures name in Names(ChainFns(k)) {
      var i: nat :| i < k && name == FnName(i);
      assert ChainFns(k)[i].0 == name;
    }
  }

  lemma NoFirst()
    ensures FirstFns(0) == {}
  {
  }

  lemma NameLength(i: nat)
    ensures |FnName(i)| == i + 1
  {
  }

  lemma NextName(k: nat)
    requires k > 0
    ensures FirstFns(k) == FirstFns(k - 1) + {FnName(k - 1)} && FnName(k - 1) !in FirstFns(k - 1)
  {
    hide FnName;
    forall i: nat | i < k - 1 ensures FnName(i) != FnName(k - 1) {
      NameLength(i);
      NameLength(k - 1);
    }
  }

  lemma {:induction false} ChainNames(k: nat)
    ensures |Names(ChainFns(k))| == k
    decreases k
  {
    hide FnName, Names, ChainFns, FirstFns;
    FirstNames(k);
    if k == 0 {
      assert |FirstFns(0)| == 0 by { NoFirst(); }
    } else {
      ChainNames(k - 1);
      FirstNames(k - 1);
      NextName(k);
    }
  }

  ghost predicate CapSolves(stmts: seq<Stmt>, n: nat)
  {
    |Names(Collect(stmts).fns)| == n ==> LeastSolution(Rounds(Collect(stmts), 10), Collect(stmts))
  }

  lemma NotLeast(fe: FunctionEffects, p: Program)
    ensures LeastSolution(fe, p) ==> Solves(fe, p)
  {
    hide Solves;
  }

  lemma CollectedFns(ss: seq<Stmt>)
    ensures Collect(ss).fns == CollectFnsOf(ss)
  {
  }

  // The cap of ten rounds is enough for every program with n functions' names exactly when n is at
  // most ten.
  lemma CapExact(n: nat)
    ensures (forall stmts :: CapSolves(stmts, n)) <==> n <= 10
  {
    hide Rounds, LeastSolution, Collect, ChainFns, Names;
    if n <= 10 {
      forall stmts ensures CapSolves(stmts, n) {
        if |Names(Collect(stmts).fns)| == n {
          RoundsSolve(Collect(stmts), 10);
        }
      }
    } else {
      ChainCollected(0, n);
      assert Chain(n)[0..] == Chain(n) && ChainFns(n)[0..] == ChainFns(n);
      ChainNames(n);
      ChainExact(n);
      NotLeast(Rounds(Collect(Chain(n)), 10), Collect(Chain(n)));
      CollectedFns(Chain(n));
      assert !CapSolves(Chain(n), n);
    }
  }
}
