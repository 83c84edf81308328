/** What the rungs of effect inference mean (crates/eronom-frontend/src/effects.rs): a rung is
    reached exactly when a chain of evaluations and of named functions leads to something that acts,
    or parks.  The operations that do are listed here by what they do. */
module EffectChains {
  import opened Options
  import opened Ast
  import opened Effects

  // ---------------------------------------------------------------- what the primitives do

  // Functions that may park: for the network, for a timer, for another computation, or for a turn.
  predicate Parks(name: string)
  {
    || name == "fetch" || name == "fetchEvented"
    || name == "sleep" || name == "wait"
    || name == "await" || name == "futureAwait" || name == "Eronom_fiberJoin"
    || name == "yield" || name == "Eronom_fiberYield" || name == "spawnTask"
    || name == "Eronom_bracket" || name == "Eronom_maskInterrupts" || name == "Eronom_unmaskInterrupts"
  }

  // Functions that act without parking: on the outside world, on fibers, on timers, on arrays.
  predicate Acts(name: string)
  {
    || name == "fetchSync" || name == "print" || name == "println" || name == "write" || name == "setIoMode"
    || name == "Eronom_fiberSpawn" || name == "Eronom_fiberInterrupt" || name == "Eronom_fiberAddFinalizer"
    || name == "setTimeout" || name == "clearTimeout"
    || name == "arrayPush" || name == "arrayPop" || name == "arrayShift"
  }

  // Functions that only look.
  predicate Looks(name: string)
  {
    name == "arrayLen" || name == "stringIndexOf" || name == "now" || name == "localTimeString"
  }

  predicate IsPrimitive(name: string) { Parks(name) || Acts(name) || Looks(name) }

  // Io.wait and the combinators of Task count as parking wherever they are mentioned.
  predicate MentionParks(obj: Expr, prop: string)
  {
    obj.Variable? && (obj.name, prop) in
      { ("Io", "wait"), ("Task", "race"), ("Task", "timeout"), ("Task", "forEach"), ("Task", "scope") }
  }

  // So do calls of join, wait and yield on anything, and those that drive the clock.
  predicate MethodParks(obj: Expr, m: string)
  {
    || m == "join" || m == "wait" || m == "yield" || MentionParks(obj, m)
    || (obj.Variable? && (obj.name, m) in { ("Clock", "run"), ("Clock", "advance"), ("Clock", "schedule") })
  }

  predicate NodeParks(n: Node)
  {
    match n
    case E(Variable(name, _)) => Parks(name)
    case E(Await(_)) => true
    case E(Get(obj, prop)) => MentionParks(obj, prop)
    case E(Call(Get(obj, m), _)) => MethodParks(obj, m)
    case S(Concurrent(_)) => true
    case _ => false
  }

  predicate NodeActs(n: Node)
  {
    || NodeParks(n) || (n.E? && n.expr.Variable? && Acts(n.expr.name))
    || (n.E? && (n.expr.Assign? || n.expr.Prefix? || n.expr.Postfix? || n.expr.Set? || n.expr.SetIndex?))
    || (n.E? && n.expr.Spawn?)
    || (n.S? && (n.stmt.Print? || n.stmt.Throw?))
  }

  // Does the node do something of this height itself?
  predicate Does(h: nat, n: Node)
  {
    if h == 0 then true else if h == 1 then NodeActs(n) else h == 2 && NodeParks(n)
  }

  lemma OfKind(name: string)
    ensures name in SUSPENDING <==> Parks(name)
    ensures name in EFFECTFUL <==> Acts(name)
    ensures name in HARMLESS <==> Looks(name)
  {
  }

  lemma Kinds(name: string)
    ensures !(Parks(name) && Acts(name)) && !(Parks(name) && Looks(name)) && !(Acts(name) && Looks(name))
  {
  }

  // The map that inference starts with says of every name what it does.
  lemma SeedsExact(name: string)
    ensures name in Seeds() <==> IsPrimitive(name)
    ensures RungOf(Seeds(), name) == if Parks(name) then Suspends else if Acts(name) then Impure else Pure
  {
    OfKind(name);
    Kinds(name);
    hide Parks, Acts, Looks;
  }

  lemma OwnMentions(obj: Expr, m: string)
    ensures GetSuspends(obj, m) == MentionParks(obj, m) && MethodSuspends(obj, m) == MethodParks(obj, m)
  {
  }

  // What a node adds itself is what it does, apart from names.
  lemma OwnExact(n: Node, fns: Rungs, h: nat)
    requires !(n.E? && n.expr.Variable?) && 0 < h
    ensures Height(Own(n, fns)) >= h <==> Does(h, n)
  {
    hide GetSuspends, MethodSuspends, MentionParks, MethodParks, Parks, Acts;
    if n.E? && n.expr.Get? {
      OwnMentions(n.expr.obj, n.expr.prop);
    } else if n.E? && n.expr.Call? && n.expr.callee.Get? {
      OwnMentions(n.expr.callee.obj, n.expr.callee.prop);
    }
  }

  // ---------------------------------------------------------------- chains

  // From the name of a function to its body.
  ghost predicate NamesBody(p: Program, n: Node, m: Node)
  {
    n.E? && n.expr.Variable? && m.S? && (n.expr.name, m.stmt) in p.fns
  }

  ghost predicate Leads(p: Program, n: Node, m: Node)
  {
    m in Evaluated(n) || NamesBody(p, n, m)
  }

  ghost predicate Trail(p: Program, path: seq<Node>)
  {
    path != [] && forall i :: 0 <= i < |path| - 1 ==> Leads(p, path[i], path[i + 1])
  }

  ghost predicate Reaches(p: Program, h: nat, n: Node)
  {
    exists path :: Trail(p, path) && path[0] == n && Does(h, path[|path| - 1])
  }

  lemma DoesReach(p: Program, h: nat, n: Node)
    requires Does(h, n)
    ensures Reaches(p, h, n)
  {
    hide Does, Leads;
    assert Trail(p, [n]);
  }

  lemma LeadsReach(p: Program, h: nat, n: Node, m: Node)
    requires Leads(p, n, m) && Reaches(p, h, m)
    ensures Reaches(p, h, n)
  {
    hide Does, Leads;
    var path: seq<Node> :| Trail(p, path) && path[0] == m && Does(h, path[|path| - 1]);
    var longer := [n] + path;
    forall i | 0 <= i < |longer| - 1 ensures Leads(p, longer[i], longer[i + 1]) {
      if i > 0 {
        assert longer[i] == path[i - 1] && longer[i + 1] == path[i];
      }
    }
    assert Trail(p, longer) && longer[|longer| - 1] == path[|path| - 1];
  }

  lemma NameRung(e: Expr, fns: Rungs)
    requires e.Variable?
    ensures Infer(E(e), fns) == Own(E(e), fns) == RungOf(fns, e.name) && Evaluated(E(e)) == []
  {
  }

  lemma OwnRung(fe: FunctionEffects, p: Program, h: nat, n: Node)
    requires Solves(fe, p) && Does(h, n)
    ensures Height(Infer(n, fe.functions)) >= h
  {
    hide Infer, Own, Seeds, Parks, Acts, MentionParks, MethodParks;
    RungCovers(n, fe.functions);
    if n.E? && n.expr.Variable? {
      var name := n.expr.name;
      SeedsExact(name);
      assert Le(RungOf(Seeds(), name), RungOf(fe.functions, name));
      NameRung(n.expr, fe.functions);
    } else if h > 0 {
      OwnExact(n, fe.functions, h);
    }
  }

  lemma StmtRung(t: Stmt, fns: Rungs)
    ensures Infer(S(t), fns) == InferStmt(t, fns)
  {
    hide InferStmt;
  }

  lemma LeadsRung(p: Program, fe: FunctionEffects, n: Node, m: Node)
    requires Solves(fe, p) && Leads(p, n, m)
    ensures Le(Infer(m, fe.functions), Infer(n, fe.functions))
  {
    hide Infer, Evaluated, InferStmt, Seeds;
    RungCovers(n, fe.functions);
    if NamesBody(p, n, m) {
      var i :| 0 <= i < |p.fns| && p.fns[i] == (n.expr.name, m.stmt);
      assert Le(InferStmt(p.fns[i].1, fe.functions), RungOf(fe.functions, p.fns[i].0));
      NameRung(n.expr, fe.functions);
      StmtRung(m.stmt, fe.functions);
    }
  }

  // What a chain reaches is in the rung of where it starts.
  lemma {:induction false} TrailRung(p: Program, fe: FunctionEffects, h: nat, path: seq<Node>)
    requires Solves(fe, p) && Trail(p, path) && Does(h, path[|path| - 1])
    ensures Height(Infer(path[0], fe.functions)) >= h
    decreases |path|
  {
    hide Infer, Own, Does, Leads, Seeds;
    if |path| == 1 {
      OwnRung(fe, p, h, path[0]);
    } else {
      var rest := path[1..];
      forall i | 0 <= i < |rest| - 1 ensures Leads(p, rest[i], rest[i + 1]) {
        assert rest[i] == path[i + 1] && rest[i + 1] == path[i + 2];
      }
      TrailRung(p, fe, h, rest);
      LeadsRung(p, fe, path[0], path[1]);
    }
  }

  // ---------------------------------------------------------------- the solution that chains make

  function NameOf(name: string): Node { E(Variable(name, NOWHERE)) }

  lemma NamesMoved(p: Program, a: Node, b: Node, m: Node)
    requires a.E? && b.E? && a.expr.Variable? && b.expr.Variable? && a.expr.name == b.expr.name && Leads(p, a, m)
    ensures Leads(p, b, m)
  {
    NameRung(a.expr, map[]);
  }

  lemma Moved(p: Program, h: nat, a: Node, b: Node)
    requires a.E? && b.E? && a.expr.Variable? && b.expr.Variable? && a.expr.name == b.expr.name && Reaches(p, h, a)
    ensures Reaches(p, h, b)
  {
    hide Parks, Acts;
    var path: seq<Node> :| Trail(p, path) && path[0] == a && Does(h, path[|path| - 1]);
    if |path| == 1 {
      DoesReach(p, h, b);
    } else {
      var rest := path[1..];
      NameRung(a.expr, map[]);
      assert Leads(p, path[0], path[1]);
      hide Does, Leads, Evaluated;
      forall i | 0 <= i < |rest| - 1 ensures Leads(p, rest[i], rest[i + 1]) {
        assert rest[i] == path[i + 1] && rest[i + 1] == path[i + 2];
      }
      assert Trail(p, rest) && rest[|rest| - 1] == path[|path| - 1];
      assert Reaches(p, h, path[1]);
      assert Leads(p, b, path[1]) by { NamesMoved(p, a, b, path[1]); }
      LeadsReach(p, h, b, path[1]);
    }
  }

  // Where a name stands does not matter.
  lemma Anywhere(p: Program, h: nat, e: Expr)
    requires e.Variable?
    ensures Reaches(p, h, E(e)) <==> Reaches(p, h, NameOf(e.name))
  {
    hide Chain;
    forall a, b | {a, b} == {E(e), NameOf(e.name)} && Reaches(p, h, a) ensures Reaches(p, h, b) {
      assert a in {a, b} && b in {a, b};
      Moved(p, h, a, b);
    }
    assert {NameOf(e.name), E(e)} == {E(e), NameOf(e.name)};
  }

  ghost function RungBy(p: Program, n: Node): EffectRung
  {
    if Reaches(p, 2, n) then Suspends else if Reaches(p, 1, n) then Impure else Pure
  }

  // Each name with the rung that chains give it.
  ghost function ByChains(p: Program): Rungs
  {
    map name | name in Seeds().Keys + Names(p.fns) :: RungBy(p, NameOf(name))
  }

  lemma ParkingActs(p: Program, n: Node)
    ensures Reaches(p, 2, n) ==> Reaches(p, 1, n)
  {
    hide NodeParks, Leads;
    if Reaches(p, 2, n) {
      var path: seq<Node> :| Trail(p, path) && path[0] == n && Does(2, path[|path| - 1]);
      assert Does(1, path[|path| - 1]);
    }
  }

  lemma ByHeight(p: Program, n: Node, h: nat)
    requires 0 < h
    ensures Height(RungBy(p, n)) >= h ==> Reaches(p, h, n)
    ensures Reaches(p, h, n) ==> Height(RungBy(p, n)) >= h
  {
    ParkingActs(p, n);
  }

  lemma NoBody(p: Program, name: string, m: Node)
    requires name !in Names(p.fns)
    ensures !Leads(p, NameOf(name), m)
  {
    NameRung(NameOf(name).expr, map[]);
  }

  lemma FirstStep(p: Program, h: nat, n: Node)
    requires Reaches(p, h, n) && !Does(h, n)
    ensures exists m :: Leads(p, n, m)
  {
    hide Does, Leads;
    var path: seq<Node> :| Trail(p, path) && path[0] == n && Does(h, path[|path| - 1]);
    assert Leads(p, path[0], path[1]);
  }

  // A name that is neither a primitive nor a function leads nowhere.
  lemma NoChain(p: Program, h: nat, name: string)
    requires 0 < h && name !in Seeds() && name !in Names(p.fns)
    ensures !Reaches(p, h, NameOf(name))
  {
    SeedsExact(name);
    hide Parks, Acts, Looks, Seeds, Leads, Names;
    assert !Does(h, NameOf(name));
    forall m ensures !Leads(p, NameOf(name), m) {
      NoBody(p, name, m);
    }
    if Reaches(p, h, NameOf(name)) {
      FirstStep(p, h, NameOf(name));
    }
  }

  lemma ChainsGive(p: Program, name: string, h: nat)
    requires 0 < h
    ensures Height(RungOf(ByChains(p), name)) >= h <==> Reaches(p, h, NameOf(name))
  {
    hide Reaches;
    ByHeight(p, NameOf(name), h);
    if name !in ByChains(p) {
      NoChain(p, h, name);
    }
  }

  lemma {:induction false} JoinFrom(h: nat, acc: EffectRung, ns: seq<Node>, fns: Rungs) returns (i: nat)
    requires Height(JoinAll(acc, ns, fns)) >= h
    ensures Height(acc) >= h || (i < |ns| && Height(Infer(ns[i], fns)) >= h)
    decreases |ns|
  {
    hide Infer;
    i := 0;
    if ns != [] && Height(acc) < h && Height(Infer(ns[0], fns)) < h {
      i := JoinFrom(h, Combine(acc, Infer(ns[0], fns)), ns[1..], fns);
      i := i + 1;
    }
  }

  lemma NodeFrom(p: Program, h: nat, n: Node)
    requires 0 < h && Height(Infer(n, ByChains(p))) >= h
    requires forall m :: m in Evaluated(n) && Height(Infer(m, ByChains(p))) >= h ==> Reaches(p, h, m)
    ensures Reaches(p, h, n)
  {
    hide Infer, Evaluated, Reaches, Does, Own, ByChains, JoinAll;
    var fns := ByChains(p);
    InferIsJoin(n, fns);
    var i := JoinFrom(h, Own(n, fns), Evaluated(n), fns);
    if Height(Own(n, fns)) >= h {
      if n.E? && n.expr.Variable? {
        NameRung(n.expr, fns);
        ChainsGive(p, n.expr.name, h);
        Anywhere(p, h, n.expr);
      } else {
        OwnExact(n, fns, h);
        DoesReach(p, h, n);
      }
    } else {
      LeadsReach(p, h, n, Evaluated(n)[i]);
    }
  }

  lemma {:induction false} ExprFrom(p: Program, h: nat, e: Expr)
    requires 0 < h
    ensures Height(Infer(E(e), ByChains(p))) >= h ==> Reaches(p, h, E(e))
    decreases e
  {
    hide Evaluated, Infer, ByChains, Reaches;
    var ns := Evaluated(E(e));
    forall i | 0 <= i < |ns| && Height(Infer(ns[i], ByChains(p))) >= h ensures Reaches(p, h, ns[i]) {
      ExprEvaluatedSmaller(e, i);
      match ns[i] case E(x) => ExprFrom(p, h, x); case S(s) => StmtFrom(p, h, s);
    }
    if Height(Infer(E(e), ByChains(p))) >= h {
      NodeFrom(p, h, E(e));
    }
  }

  lemma {:induction false} StmtFrom(p: Program, h: nat, t: Stmt)
    requires 0 < h
    ensures Height(Infer(S(t), ByChains(p))) >= h ==> Reaches(p, h, S(t))
    decreases t
  {
    hide Evaluated, Infer, ByChains, Reaches;
    var ns := Evaluated(S(t));
    forall i | 0 <= i < |ns| && Height(Infer(ns[i], ByChains(p))) >= h ensures Reaches(p, h, ns[i]) {
      StmtEvaluatedSmaller(t, i);
      match ns[i] case E(x) => ExprFrom(p, h, x); case S(s) => StmtFrom(p, h, s);
    }
    if Height(Infer(S(t), ByChains(p))) >= h {
      NodeFrom(p, h, S(t));
    }
  }

  // The methods' rungs do not matter to those of functions.
  ghost function TopMethods(p: Program): Rungs
  {
    map name | name in Names(p.methods) :: Suspends
  }

  lemma ChainsCover(p: Program, i: nat)
    requires i < |p.fns|
    ensures Le(InferStmt(p.fns[i].1, ByChains(p)), RungOf(ByChains(p), p.fns[i].0))
  {
    hide InferStmt, ByChains, Reaches, Evaluated;
    var (name, body) := p.fns[i];
    var h := Height(InferStmt(body, ByChains(p)));
    if h > 0 {
      StmtRung(body, ByChains(p));
      StmtFrom(p, h, body);
      LeadsReach(p, h, NameOf(name), S(body));
      ChainsGive(p, name, h);
    }
  }

  lemma ChainsSolve(p: Program)
    ensures Solves(FunctionEffects(ByChains(p), TopMethods(p)), p)
  {
    hide InferStmt, ByChains, Reaches, Seeds;
    forall name ensures Le(RungOf(Seeds(), name), RungOf(ByChains(p), name)) {
      SeedsExact(name);
      var h := Height(RungOf(Seeds(), name));
      if h > 0 {
        DoesReach(p, h, NameOf(name));
        ChainsGive(p, name, h);
      }
    }
    forall i | 0 <= i < |p.fns| ensures Le(InferStmt(p.fns[i].1, ByChains(p)), RungOf(ByChains(p), p.fns[i].0)) {
      ChainsCover(p, i);
    }
    forall i | 0 <= i < |p.methods|
      ensures Le(InferStmt(p.methods[i].1, ByChains(p)), RungOf(TopMethods(p), p.methods[i].0)) {
      assert p.methods[i].0 in Names(p.methods);
    }
  }

  lemma NodeMonotone(n: Node, a: Rungs, b: Rungs)
    requires Below(a, b)
    ensures Le(Infer(n, a), Infer(n, b))
  {
    match n case E(e) => ExprMonotone(e, a, b); case S(s) => StmtMonotone(s, a, b);
  }

  /** Under the least solution the rung of a piece of syntax reaches a height exactly when a chain
      leads from it to something that does something of that height. */
  lemma RungExact(p: Program, fe: FunctionEffects, h: nat, n: Node)
    requires LeastSolution(fe, p) && 0 < h
    ensures Height(Infer(n, fe.functions)) >= h <==> Reaches(p, h, n)
  {
    hide Infer, ByChains, Evaluated, Own, Solves;
    var t := FunctionEffects(ByChains(p), TopMethods(p));
    ChainsSolve(p);
    if Height(Infer(n, fe.functions)) >= h {
      assert BelowBoth(fe, t);
      NodeMonotone(n, fe.functions, t.functions);
      match n case E(e) => ExprFrom(p, h, e); case S(s) => StmtFrom(p, h, s);
    }
    if Reaches(p, h, n) {
      var path: seq<Node> :| Trail(p, path) && path[0] == n && Does(h, path[|path| - 1]);
      TrailRung(p, fe, h, path);
    }
  }

  // Does a body of the method reach the height?
  ghost predicate MethodReaches(p: Program, h: nat, name: string)
  {
    exists i :: 0 <= i < |p.methods| && p.methods[i].0 == name && Reaches(p, h, S(p.methods[i].1))
  }

  ghost function MethodsBy(p: Program): Rungs
  {
    map name | name in Names(p.methods) ::
      if MethodReaches(p, 2, name) then Suspends else if MethodReaches(p, 1, name) then Impure else Pure
  }

  lemma MethodRungs(p: Program, name: string, h: nat)
    requires 0 < h
    ensures Height(RungOf(MethodsBy(p), name)) >= h <==> MethodReaches(p, h, name)
  {
    hide Reaches;
    if MethodReaches(p, h, name) {
      var i :| 0 <= i < |p.methods| && p.methods[i].0 == name && Reaches(p, h, S(p.methods[i].1));
      assert p.methods[i].0 in Names(p.methods);
      ByHeight(p, S(p.methods[i].1), h);
      ParkingActs(p, S(p.methods[i].1));
    }
    if MethodReaches(p, 2, name) {
      var i :| 0 <= i < |p.methods| && p.methods[i].0 == name && Reaches(p, 2, S(p.methods[i].1));
      ParkingActs(p, S(p.methods[i].1));
    }
  }

  lemma MethodsCover(p: Program, fe: FunctionEffects)
    requires LeastSolution(fe, p)
    ensures CoversAll(MethodsBy(p), fe.functions, p.methods)
  {
    hide LeastSolution, Reaches, InferStmt, MethodsBy;
    forall i | 0 <= i < |p.methods|
      ensures Le(InferStmt(p.methods[i].1, fe.functions), RungOf(MethodsBy(p), p.methods[i].0)) {
      var h := Height(InferStmt(p.methods[i].1, fe.functions));
      if h > 0 {
        StmtRung(p.methods[i].1, fe.functions);
        RungExact(p, fe, h, S(p.methods[i].1));
        MethodRungs(p, p.methods[i].0, h);
      }
    }
  }

  // The rung of a method under the least solution is what its bodies reach.
  lemma MethodExact(p: Program, fe: FunctionEffects, h: nat, name: string)
    requires LeastSolution(fe, p) && 0 < h
    ensures Height(RungOf(fe.methods, name)) >= h <==> MethodReaches(p, h, name)
  {
    hide Reaches, InferStmt, MethodsBy;
    MethodsCover(p, fe);
    assert BelowBoth(fe, FunctionEffects(fe.functions, MethodsBy(p)));
    assert Le(RungOf(fe.methods, name), RungOf(MethodsBy(p), name));
    MethodRungs(p, name, h);
    if MethodReaches(p, h, name) {
      var i :| 0 <= i < |p.methods| && p.methods[i].0 == name && Reaches(p, h, S(p.methods[i].1));
      RungExact(p, fe, h, S(p.methods[i].1));
      StmtRung(p.methods[i].1, fe.functions);
      assert Le(InferStmt(p.methods[i].1, fe.functions), RungOf(fe.methods, p.methods[i].0));
    }
  }

  lemma NameIs(name: string, fns: Rungs)
    ensures Infer(NameOf(name), fns) == RungOf(fns, name)
  {
  }

  /** For a program with up to ten functions' names, inference gives a function the rung that chains
      from its bodies, or what it does as a primitive, reach: no lower, and no higher. */
  lemma InferredExactly(stmts: seq<Stmt>, name: string)
    requires |Names(Collect(stmts).fns)| <= 10
    ensures
      var p := Collect(stmts);
      RungOf(Rounds(p, 10).functions, name) == RungBy(p, NameOf(name))
  {
    hide Rounds, LeastSolution, Collect, Reaches, Infer, Names;
    var p := Collect(stmts);
    RoundsSolve(p, 10);
    RungExact(p, Rounds(p, 10), 1, NameOf(name));
    RungExact(p, Rounds(p, 10), 2, NameOf(name));
    ByHeight(p, NameOf(name), 1);
    ByHeight(p, NameOf(name), 2);
    NameIs(name, Rounds(p, 10).functions);
  }
}
