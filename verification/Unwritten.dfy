/** The reactivity rewrite loses nothing (crates/eronom-frontend/src/transpile.rs:389-711): taking every
    call of the runtime back to the variable that it stands for gives the program back, with all names,
    parameters, operators, flags and places. */
module Unwritten {
  import opened Options
  import opened Ast
  import opened Transpile

  // ---------------------------------------------------------------- the way back

  // erm.f(x, more...), as the rewrite writes it.
  predicate IsErmCall(e: Expr)
  {
    && e.Call? && e.callee.Get? && e.callee.obj.Variable? && e.callee.obj.name == "erm"
    && e.args != [] && e.args[0].Variable? && e.args[0].loc == e.callee.obj.loc
  }

  // The operator of a step by one, or by one back.
  function StepOf(e: Expr): string
  {
    if e == Literal("1") then "++" else if e == Literal("-1") then "--" else ""
  }

  function Back(e: Expr): Expr
    decreases e, 1
  {
    match e
    case Literal(_) => e
    case Variable(_, _) => e
    case Assign(x, val, loc) => Assign(x, Back(val), loc)
    case Binary(l, op, r) => Binary(Back(l), op, Back(r))
    case Logical(l, op, r) => Logical(Back(l), op, Back(r))
    case Unary(op, x) => Unary(op, Back(x))
    case Prefix(op, x) => Prefix(op, Back(x))
    case Postfix(op, x) => Postfix(op, Back(x))
    case Ternary(c, t, f) => Ternary(Back(c), Back(t), Back(f))
    case Call(callee, args) =>
      if IsErmCall(e) && callee.prop == "get" && |args| == 1 then args[0]
      else if IsErmCall(e) && callee.prop == "set" && |args| == 2 then Assign(args[0].name, Back(args[1]), args[0].loc)
      else if IsErmCall(e) && callee.prop == "update_pre" && |args| == 2 then Prefix(StepOf(args[1]), args[0])
      else if IsErmCall(e) && callee.prop == "update" && |args| == 2 then Postfix(StepOf(args[1]), args[0])
      else Call(Back(callee), BackAll(args))
    case Get(obj, prop) => Get(Back(obj), prop)
    case Set(obj, prop, val) => Set(Back(obj), prop, Back(val))
    case Array(es) => Array(BackAll(es))
    case Object(ps) => Object(BackPairs(ps))
    case Function(ps, body, isAsync, isSync) => Function(ps, BackStmt(body), isAsync, isSync)
    case GetIndex(obj, idx) => GetIndex(Back(obj), Back(idx))
    case SetIndex(obj, idx, val) => SetIndex(Back(obj), Back(idx), Back(val))
    case StructInst(name, ps, loc) => StructInst(name, BackPairs(ps), loc)
    case TypeCast(x, ty, loc) => TypeCast(Back(x), ty, loc)
    case Spawn(x) => Spawn(Back(x))
    case Await(x) => Await(Back(x))
    case New(x) => New(Back(x))
  }

  function BackAll(es: seq<Expr>): (r: seq<Expr>)
    ensures |r| == |es| && forall i :: 0 <= i < |es| ==> r[i] == Back(es[i])
    decreases es, 0
  {
    seq(|es|, i requires 0 <= i < |es| => Back(es[i]))
  }

  function BackPairs(ps: seq<(string, Expr)>): (r: seq<(string, Expr)>)
    ensures |r| == |ps|
    ensures forall i :: 0 <= i < |ps| ==> (assert ps decreases to ps[i]; r[i] == (ps[i].0, Back(ps[i].1)))
    decreases ps, 0
  {
    seq(|ps|, i requires 0 <= i < |ps| =>
      assert ps decreases to ps[i];
      (ps[i].0, Back(ps[i].1)))
  }

  function BackBlock(ss: seq<Stmt>): (r: seq<Stmt>)
    ensures |r| == |ss| && forall i :: 0 <= i < |ss| ==> r[i] == BackStmt(ss[i])
    decreases ss, 0
  {
    seq(|ss|, i requires 0 <= i < |ss| => BackStmt(ss[i]))
  }

  function BackOpt(s: Option<Stmt>): Option<Stmt>
    decreases s, 0
  {
    if s.Some? then Some(BackStmt(s.value)) else None
  }

  function BackCatch(c: Option<(string, Stmt)>): Option<(string, Stmt)>
    decreases c, 0
  {
    if c.Some? then
      assert c decreases to c.value;
      Some((c.value.0, BackStmt(c.value.1)))
    else None
  }

  function BackCases(cs: seq<SwitchCase>): (r: seq<SwitchCase>)
    ensures |r| == |cs|
    ensures forall i :: 0 <= i < |cs| ==> r[i] == SwitchCase(BackAll(cs[i].values), BackStmt(cs[i].body))
    decreases cs, 0
  {
    seq(|cs|, i requires 0 <= i < |cs| =>
      assert cs decreases to cs[i];
      SwitchCase(BackAll(cs[i].values), BackStmt(cs[i].body)))
  }

  function BackStmt(s: Stmt): Stmt
    decreases s, 1
  {
    match s
    case ExprStmt(e) => ExprStmt(Back(e))
    case Print(e) => Print(Back(e))
    case Block(ss) => Block(BackBlock(ss))
    case VarDecl(x, isConst, init, loc) => VarDecl(x, isConst, Back(init), loc)
    case If(c, t, f) => If(Back(c), BackStmt(t), BackOpt(f))
    case While(c, b) => While(Back(c), BackStmt(b))
    case For(x, start, end, b) => For(x, Back(start), Back(end), BackStmt(b))
    case ForIn(x, iter, b) => ForIn(x, Back(iter), BackStmt(b))
    case Return(e, loc) => Return(if e.Some? then Some(Back(e.value)) else None, loc)
    case Throw(e) => Throw(Back(e))
    case Try(t, c, f) => Try(BackStmt(t), BackCatch(c), BackOpt(f))
    case Switch(e, cs, d) => Switch(Back(e), BackCases(cs), BackOpt(d))
    case Export(inner) => Export(BackStmt(inner))
    case Concurrent(b) => Concurrent(BackStmt(b))
    case Sync(b) => Sync(BackStmt(b))
    case _ => s
  }

  // ---------------------------------------------------------------- which programs come back

  // The program does not name the runtime itself, and does not read or write a state variable as
  // x.value, which the rewrite makes no difference of.
  predicate LocalClear(n: Node, state: seq<string>)
  {
    match n
    case E(Variable(x, _)) => x != "erm"
    case E(Get(obj, prop)) => !(obj.Variable? && obj.name in state && prop == "value")
    case E(Set(obj, prop, _)) => !(obj.Variable? && obj.name in state && prop == "value")
    case _ => true
  }

  ghost predicate ClearExpr(e: Expr, state: seq<string>)
    decreases e
  {
    && LocalClear(E(e), state)
    && forall i :: 0 <= i < |Children(E(e))| ==>
         (ExprPartSmaller(e, i);
          match Children(E(e))[i] case E(x) => ClearExpr(x, state) case S(t) => ClearStmt(t, state))
  }

  ghost predicate ClearStmt(s: Stmt, state: seq<string>)
    decreases s
  {
    && LocalClear(S(s), state)
    && forall i :: 0 <= i < |Children(S(s))| ==>
         (StmtPartSmaller(s, i);
          match Children(S(s))[i] case E(x) => ClearExpr(x, state) case S(t) => ClearStmt(t, state))
  }

  ghost predicate Clear(n: Node, state: seq<string>)
  {
    match n case E(x) => ClearExpr(x, state) case S(t) => ClearStmt(t, state)
  }

  lemma ClearPart(n: Node, i: nat, state: seq<string>)
    requires Clear(n, state) && i < |Children(n)|
    ensures LocalClear(n, state) && Clear(Children(n)[i], state)
  {
    hide LocalClear, Children;
  }

  lemma ClearLocal(n: Node, state: seq<string>)
    requires Clear(n, state)
    ensures LocalClear(n, state)
  {
    hide LocalClear, Children;
  }

  lemma ClearIn(n: Node, c: Node, state: seq<string>)
    requires Clear(n, state) && c in Children(n)
    ensures Clear(c, state)
  {
    hide LocalClear, Children, Clear;
    var i :| 0 <= i < |Children(n)| && Children(n)[i] == c;
    ClearPart(n, i, state);
  }

  // ---------------------------------------------------------------- the rewrite undone

  lemma ErmBack(f: string, x: string, loc: Location, more: seq<Expr>)
    ensures var e := ErmCall(f, x, loc, more);
      && IsErmCall(e) && e.callee.prop == f && e.args[0] == Variable(x, loc) && |e.args| == |more| + 1
      && (|more| == 1 ==> e.args[1] == more[0])
  {
  }

  lemma VariableBack(x: string, loc: Location)
    ensures Back(ErmCall("get", x, loc, [])) == Variable(x, loc)
  {
    ErmBack("get", x, loc, []);
    hide ErmCall;
  }

  lemma AssignBack(x: string, loc: Location, val: Expr)
    ensures Back(ErmCall("set", x, loc, [val])) == Assign(x, Back(val), loc)
  {
    ErmBack("set", x, loc, [val]);
    hide ErmCall, BackAll;
  }

  lemma StepBack(op: string, x: string, loc: Location)
    requires Delta(op).Some?
    ensures Back(ErmCall("update_pre", x, loc, [Delta(op).value])) == Prefix(op, Variable(x, loc))
    ensures Back(ErmCall("update", x, loc, [Delta(op).value])) == Postfix(op, Variable(x, loc))
  {
    ErmBack("update_pre", x, loc, [Delta(op).value]);
    ErmBack("update", x, loc, [Delta(op).value]);
    assert StepOf(Delta(op).value) == op;
    hide ErmCall, StepOf, BackAll;
  }

  lemma ClearCallee(callee: Expr, args: seq<Expr>, state: seq<string>)
    requires ClearExpr(Call(callee, args), state)
    ensures callee.Get? && callee.obj.Variable? ==> callee.obj.name != "erm"
  {
    var e := Call(callee, args);
    assert E(callee) in Children(E(e)) by { assert Children(E(e))[0] == E(callee); }
    if callee.Get? && callee.obj.Variable? {
      assert E(callee.obj) in Children(E(callee)) by { assert Children(E(callee))[0] == E(callee.obj); }
      hide ClearExpr, Children;
      assert Clear(E(e), state);
      ClearIn(E(e), E(callee), state);
      ClearIn(E(callee), E(callee.obj), state);
      ClearLocal(E(callee.obj), state);
    }
  }

  // What is a property or a name in the rewrite was one before.
  lemma GetKept(e: Expr, state: seq<string>, shadowed: seq<string>)
    ensures var t := TransExpr(e, state, shadowed);
      t.Get? ==> e.Get? && t == Get(TransExpr(e.obj, state, shadowed), e.prop)
    ensures var t := TransExpr(e, state, shadowed); t.Variable? ==> e == t
  {
    hide Reactive, Delta, TransStmt;
  }

  // A call that the program itself makes is not one of the rewrite's.
  lemma OwnCall(callee: Expr, args: seq<Expr>, state: seq<string>, shadowed: seq<string>)
    requires ClearExpr(Call(callee, args), state)
    ensures var e' := Call(TransExpr(callee, state, shadowed), TransExprs(args, state, shadowed)); !IsErmCall(e')
  {
    ClearCallee(callee, args, state);
    hide ClearExpr, TransExpr;
    GetKept(callee, state, shadowed);
    if callee.Get? {
      GetKept(callee.obj, state, shadowed);
    }
  }

  lemma FixedSmaller(e: Expr, i: nat)
    requires i < |ExprParts(e)| && ExprParts(e)[i].E?
    requires !e.Array? && !e.Object? && !e.StructInst? && !e.Call?
    ensures e decreases to ExprParts(e)[i].expr
  {
  }

  lemma PartIn(e: Expr, n: Node)
    requires n in ExprParts(e)
    ensures n in Children(E(e))
  {
    hide ExprParts;
  }

  lemma At(s: Stmt, i: nat, n: Node, state: seq<string>)
    requires ClearStmt(s, state) && i < |Children(S(s))| && Children(S(s))[i] == n
    ensures Clear(n, state)
  {
    hide ClearStmt, ClearExpr, Children;
    ClearPart(S(s), i, state);
  }

  lemma BodyChild(e: Expr)
    requires e.Function?
    ensures S(e.body) in Children(E(e))
  {
    assert Children(E(e))[0] == S(e.body);
  }

  predicate HasOneFixed(e: Expr)
  {
    e.Literal? || e.Unary? || e.Spawn? || e.TypeCast? || e.Await? || e.New?
  }

  predicate HasMoreFixed(e: Expr)
  {
    e.Binary? || e.Logical? || e.Ternary? || e.GetIndex? || e.SetIndex?
  }

  ghost predicate PartIsBack(e: Expr, i: nat, state: seq<string>, shadowed: seq<string>)
  {
    i < |ExprParts(e)| && ExprParts(e)[i].E? ==>
      Back(TransExpr(ExprParts(e)[i].expr, state, shadowed)) == ExprParts(e)[i].expr
  }

  lemma OneFixed(e: Expr, state: seq<string>, shadowed: seq<string>)
    requires HasOneFixed(e) && PartIsBack(e, 0, state, shadowed)
    ensures Back(TransExpr(e, state, shadowed)) == e
  {
    hide Reactive, ErmCall, Delta, TransStmt, BackStmt, IsErmCall;
  }

  lemma MoreFixed(e: Expr, state: seq<string>, shadowed: seq<string>)
    requires HasMoreFixed(e) && PartIsBack(e, 0, state, shadowed) && PartIsBack(e, 1, state, shadowed)
      && PartIsBack(e, 2, state, shadowed)
    ensures Back(TransExpr(e, state, shadowed)) == e
  {
    hide Reactive, ErmCall, Delta, TransStmt, BackStmt, IsErmCall;
  }

  lemma {:induction false} ExprBack(e: Expr, state: seq<string>, shadowed: seq<string>)
    requires ClearExpr(e, state)
    ensures Back(TransExpr(e, state, shadowed)) == e
    decreases e, 1
  {
    hide Reactive, ErmCall, Delta, TransStmt, BackStmt, ClearExpr, ClearStmt, Children;
    match e
    case Literal(_) =>
    case Variable(x, loc) => VariableBack(x, loc);
    case Assign(_, _, _) => AccessBack(e, state, shadowed);
    case Get(_, _) => AccessBack(e, state, shadowed);
    case Set(_, _, _) => AccessBack(e, state, shadowed);
    case Prefix(_, _) => SteppedBack(e, state, shadowed);
    case Postfix(_, _) => SteppedBack(e, state, shadowed);
    case Function(ps, body, _, _) =>
      assert S(body) in Children(E(e)) by { BodyChild(e); }
      ClearIn(E(e), S(body), state);
      StmtBack(body, state, shadowed + ps);
    case Call(_, _) => CallBack(e, state, shadowed);
    case _ => PartsBack(e, state, shadowed);
  }

  lemma {:induction false} AccessBack(e: Expr, state: seq<string>, shadowed: seq<string>)
    requires (e.Assign? || e.Get? || e.Set?) && ClearExpr(e, state)
    ensures Back(TransExpr(e, state, shadowed)) == e
    decreases e, 0
  {
    ClearLocal(E(e), state);
    hide ErmCall, Delta, TransStmt, BackStmt, ClearExpr, ClearStmt, IsErmCall;
    if !e.Get? {
      assert E(e.val) in Children(E(e)) by { assert Children(E(e))[if e.Assign? then 0 else 1] == E(e.val); }
      ClearIn(E(e), E(e.val), state);
      ExprBack(e.val, state, shadowed);
      AssignBack(if e.Assign? then e.target else "", if e.Assign? then e.loc else NOWHERE,
        TransExpr(e.val, state, shadowed));
    }
    if !e.Assign? {
      assert E(e.obj) in Children(E(e)) by { assert Children(E(e))[0] == E(e.obj); }
      ClearIn(E(e), E(e.obj), state);
      ExprBack(e.obj, state, shadowed);
    }
  }

  lemma {:induction false} SteppedBack(e: Expr, state: seq<string>, shadowed: seq<string>)
    requires (e.Prefix? || e.Postfix?) && ClearExpr(e, state)
    ensures Back(TransExpr(e, state, shadowed)) == e
    decreases e, 0
  {
    hide Reactive, ErmCall, Delta, TransStmt, BackStmt, ClearExpr, ClearStmt, IsErmCall;
    var x := e.inner;
    assert E(x) in Children(E(e)) by { assert Children(E(e))[0] == E(x); }
    ClearIn(E(e), E(x), state);
    ExprBack(x, state, shadowed);
    if x.Variable? && Reactive(x.name, state, shadowed) && Delta(e.op).Some? {
      StepBack(e.op, x.name, x.loc);
    }
  }

  lemma {:induction false} CallBack(e: Expr, state: seq<string>, shadowed: seq<string>)
    requires e.Call? && ClearExpr(e, state)
    ensures Back(TransExpr(e, state, shadowed)) == e
    decreases e, 0
  {
    OwnCall(e.callee, e.args, state, shadowed);
    hide Reactive, ErmCall, Delta, TransStmt, BackStmt, ClearExpr, ClearStmt, IsErmCall;
    assert E(e.callee) in Children(E(e)) by { assert Children(E(e))[0] == E(e.callee); }
    ClearIn(E(e), E(e.callee), state);
    ExprBack(e.callee, state, shadowed);
    forall i | 0 <= i < |e.args| ensures ClearExpr(e.args[i], state) {
      assert Children(E(e))[i + 1] == E(e.args[i]);
      ClearPart(E(e), i + 1, state);
    }
    AllBack(e.args, state, shadowed);
  }

  lemma {:induction false} AllBack(es: seq<Expr>, state: seq<string>, shadowed: seq<string>)
    requires forall i :: 0 <= i < |es| ==> ClearExpr(es[i], state)
    ensures BackAll(TransExprs(es, state, shadowed)) == es
    decreases es, 0
  {
    hide TransExpr, Back, ClearExpr;
    forall i | 0 <= i < |es| ensures Back(TransExpr(es[i], state, shadowed)) == es[i] {
      ExprBack(es[i], state, shadowed);
    }
  }

  lemma {:induction false} PairsBack(ps: seq<(string, Expr)>, state: seq<string>, shadowed: seq<string>)
    requires forall i :: 0 <= i < |ps| ==> ClearExpr(ps[i].1, state)
    ensures BackPairs(TransPairs(ps, state, shadowed)) == ps
    decreases ps, 0
  {
    hide TransExpr, Back, ClearExpr;
    forall i | 0 <= i < |ps| ensures BackPairs(TransPairs(ps, state, shadowed))[i] == ps[i] {
      assert ps decreases to ps[i];
      ExprBack(ps[i].1, state, shadowed);
    }
  }

  // The expressions that are rewritten part by part.
  lemma {:induction false} PartsBack(e: Expr, state: seq<string>, shadowed: seq<string>)
    requires !e.Variable? && !e.Assign? && !e.Get? && !e.Set? && !e.Prefix? && !e.Postfix? && !e.Function? && !e.Call?
    requires ClearExpr(e, state)
    ensures Back(TransExpr(e, state, shadowed)) == e
    decreases e, 0
  {
    hide Reactive, ErmCall, Delta, TransStmt, BackStmt, ClearExpr, ClearStmt, IsErmCall;
    if e.Array? || e.Object? || e.StructInst? {
      ListBack(e, state, shadowed);
    } else {
      forall x | E(x) in ExprParts(e) ensures ClearExpr(x, state) {
        PartIn(e, E(x));
        ClearIn(E(e), E(x), state);
      }
      FixedBack(e, state, shadowed);
    }
  }

  lemma {:induction false} ListBack(e: Expr, state: seq<string>, shadowed: seq<string>)
    requires (e.Array? || e.Object? || e.StructInst?) && ClearExpr(e, state)
    ensures Back(TransExpr(e, state, shadowed)) == e
    decreases e, 0, 0
  {
    hide Reactive, ErmCall, Delta, TransStmt, BackStmt, ClearExpr, ClearStmt, IsErmCall;
    if e.Array? {
      forall i | 0 <= i < |e.elements| ensures ClearExpr(e.elements[i], state) {
        assert Children(E(e))[i] == E(e.elements[i]);
        ClearPart(E(e), i, state);
      }
      AllBack(e.elements, state, shadowed);
    } else {
      forall i | 0 <= i < |e.pairs| ensures ClearExpr(e.pairs[i].1, state) {
        assert Children(E(e))[i] == E(e.pairs[i].1);
        ClearPart(E(e), i, state);
      }
      PairsBack(e.pairs, state, shadowed);
    }
  }

  lemma {:induction false} FixedBack(e: Expr, state: seq<string>, shadowed: seq<string>)
    requires HasOneFixed(e) || HasMoreFixed(e)
    requires forall x :: E(x) in ExprParts(e) ==> ClearExpr(x, state)
    ensures Back(TransExpr(e, state, shadowed)) == e
    decreases e, 0, 0
  {
    hide TransExpr, Back, ClearExpr, ClearStmt;
    forall i: nat ensures PartIsBack(e, i, state, shadowed) {
      if i < |ExprParts(e)| && ExprParts(e)[i].E? {
        var x := ExprParts(e)[i].expr;
        assert E(x) in ExprParts(e);
        assert e decreases to x by { FixedSmaller(e, i); }
        ExprBack(x, state, shadowed);
      }
    }
    hide PartIsBack;
    if HasOneFixed(e) {
      OneFixed(e, state, shadowed);
    } else {
      MoreFixed(e, state, shadowed);
    }
  }

  lemma {:induction false} BlockBack(ss: seq<Stmt>, state: seq<string>, shadowed: seq<string>)
    requires forall i :: 0 <= i < |ss| ==> ClearStmt(ss[i], state)
    ensures BackBlock(TransBlock(ss, state, shadowed)) == ss
    decreases ss, 0
  {
    hide TransStmt, BackStmt, ClearStmt, Declared;
    if ss == [] {
      assert TransBlock(ss, state, shadowed) == [];
    } else {
      StmtBack(ss[0], state, shadowed);
      BlockBack(ss[1..], state, shadowed + Declared(ss[0]));
      var t, rest := TransBlock(ss, state, shadowed), TransBlock(ss[1..], state, shadowed + Declared(ss[0]));
      assert t == [TransStmt(ss[0], state, shadowed)] + rest;
      assert BackBlock(t) == [ss[0]] + BackBlock(rest);
    }
  }

  lemma {:induction false} OptBack(s: Option<Stmt>, state: seq<string>, shadowed: seq<string>)
    requires s.Some? ==> ClearStmt(s.value, state)
    ensures BackOpt(TransOpt(s, state, shadowed)) == s
    decreases s, 0
  {
    hide TransStmt, BackStmt, ClearStmt;
    if s.Some? {
      StmtBack(s.value, state, shadowed);
    }
  }

  lemma {:induction false} CatchBack(c: Option<(string, Stmt)>, state: seq<string>, shadowed: seq<string>)
    requires c.Some? ==> ClearStmt(c.value.1, state)
    ensures BackCatch(TransCatch(c, state, shadowed)) == c
    decreases c, 0
  {
    hide TransStmt, BackStmt, ClearStmt;
    if c.Some? {
      assert c decreases to c.value;
      StmtBack(c.value.1, state, shadowed + [c.value.0]);
    }
  }

  lemma {:induction false} CasesBack(cs: seq<SwitchCase>, state: seq<string>, shadowed: seq<string>)
    requires forall i :: 0 <= i < |cs| ==> ClearStmt(cs[i].body, state)
    requires forall i, j :: 0 <= i < |cs| && 0 <= j < |cs[i].values| ==> ClearExpr(cs[i].values[j], state)
    ensures BackCases(TransCases(cs, state, shadowed)) == cs
    decreases cs, 0
  {
    hide TransStmt, BackStmt, ClearStmt, ClearExpr, BackAll, TransExprs;
    forall i | 0 <= i < |cs| ensures BackCases(TransCases(cs, state, shadowed))[i] == cs[i] {
      assert cs decreases to cs[i];
      AllBack(cs[i].values, state, shadowed);
      StmtBack(cs[i].body, state, shadowed);
    }
  }

  /** Taken back, the rewrite of a statement is the statement. */
  lemma {:induction false} StmtBack(s: Stmt, state: seq<string>, shadowed: seq<string>)
    requires ClearStmt(s, state)
    ensures BackStmt(TransStmt(s, state, shadowed)) == s
    decreases s, 1
  {
    hide TransExpr, Back, ClearExpr, ClearStmt, TransBlock, BackBlock;
    match s
    case ExprStmt(e) => At(s, 0, E(e), state); ExprBack(e, state, shadowed);
    case Print(e) => At(s, 0, E(e), state); ExprBack(e, state, shadowed);
    case Throw(e) => At(s, 0, E(e), state); ExprBack(e, state, shadowed);
    case VarDecl(_, _, init, _) => At(s, 0, E(init), state); ExprBack(init, state, shadowed);
    case Return(e, _) => if e.Some? { At(s, 0, E(e.value), state); ExprBack(e.value, state, shadowed); }
    case Export(inner) => At(s, 0, S(inner), state); StmtBack(inner, state, shadowed);
    case Concurrent(b) => At(s, 0, S(b), state); StmtBack(b, state, shadowed);
    case Sync(b) => At(s, 0, S(b), state); StmtBack(b, state, shadowed);
    case Block(ss) =>
      forall i | 0 <= i < |ss| ensures ClearStmt(ss[i], state) {
        At(s, i, S(ss[i]), state);
      }
      BlockBack(ss, state, shadowed);
    case If(_, _, _) => BranchBack(s, state, shadowed);
    case While(_, _) => LoopBack(s, state, shadowed);
    case For(_, _, _, _) => LoopBack(s, state, shadowed);
    case ForIn(_, _, _) => LoopBack(s, state, shadowed);
    case Try(_, _, _) => TryBack(s, state, shadowed);
    case Switch(_, _, _) => SwitchBack(s, state, shadowed);
    case _ =>
  }

  lemma {:induction false} LoopBack(s: Stmt, state: seq<string>, shadowed: seq<string>)
    requires (s.While? || s.For? || s.ForIn?) && ClearStmt(s, state)
    ensures BackStmt(TransStmt(s, state, shadowed)) == s
    decreases s, 0
  {
    hide TransExpr, Back, ClearExpr, ClearStmt;
    match s
    case While(c, b) =>
      At(s, 0, E(c), state);
      At(s, 1, S(b), state);
      ExprBack(c, state, shadowed);
      StmtBack(b, state, shadowed);
    case For(x, start, end, b) =>
      At(s, 0, E(start), state);
      At(s, 1, E(end), state);
      At(s, 2, S(b), state);
      ExprBack(start, state, shadowed);
      ExprBack(end, state, shadowed);
      StmtBack(b, state, shadowed + [x]);
    case ForIn(x, iter, b) =>
      At(s, 0, E(iter), state);
      At(s, 1, S(b), state);
      ExprBack(iter, state, shadowed);
      StmtBack(b, state, shadowed + [x]);
  }

  lemma {:induction false} BranchBack(s: Stmt, state: seq<string>, shadowed: seq<string>)
    requires s.If? && ClearStmt(s, state)
    ensures BackStmt(TransStmt(s, state, shadowed)) == s
    decreases s, 0
  {
    hide TransExpr, Back, ClearExpr, ClearStmt;
    At(s, 0, E(s.cond), state);
    At(s, 1, S(s.thenB), state);
    if s.elseB.Some? {
      At(s, 2, S(s.elseB.value), state);
    }
    ExprBack(s.cond, state, shadowed);
    StmtBack(s.thenB, state, shadowed);
    OptBack(s.elseB, state, shadowed);
  }

  lemma {:induction false} TryBack(s: Stmt, state: seq<string>, shadowed: seq<string>)
    requires s.Try? && ClearStmt(s, state)
    ensures BackStmt(TransStmt(s, state, shadowed)) == s
    decreases s, 0
  {
    hide TransExpr, Back, ClearExpr, ClearStmt;
    At(s, 0, S(s.tryB), state);
    if s.catchB.Some? {
      At(s, 1, S(s.catchB.value.1), state);
    }
    if s.finallyB.Some? {
      At(s, if s.catchB.Some? then 2 else 1, S(s.finallyB.value), state);
    }
    StmtBack(s.tryB, state, shadowed);
    CatchBack(s.catchB, state, shadowed);
    OptBack(s.finallyB, state, shadowed);
  }

  lemma {:induction false} SwitchBack(s: Stmt, state: seq<string>, shadowed: seq<string>)
    requires s.Switch? && ClearStmt(s, state)
    ensures BackStmt(TransStmt(s, state, shadowed)) == s
    decreases s, 0
  {
    hide TransExpr, Back, ClearExpr, ClearStmt, CaseNodes;
    At(s, 0, E(s.e), state);
    forall n | n in CaseNodes(s.cases) ensures Clear(n, state) {
      assert n in Children(S(s));
      ClearIn(S(s), n, state);
    }
    if s.defaultB.Some? {
      assert S(s.defaultB.value) in Children(S(s));
      ClearIn(S(s), S(s.defaultB.value), state);
    }
    forall i | 0 <= i < |s.cases|
      ensures ClearStmt(s.cases[i].body, state)
      ensures forall j :: 0 <= j < |s.cases[i].values| ==> ClearExpr(s.cases[i].values[j], state)
    {
      CaseInside(s.cases, i);
      assert Clear(S(s.cases[i].body), state);
      forall j | 0 <= j < |s.cases[i].values| ensures ClearExpr(s.cases[i].values[j], state) {
        assert Clear(E(s.cases[i].values[j]), state);
      }
    }
    ExprBack(s.e, state, shadowed);
    CasesBack(s.cases, state, shadowed);
    OptBack(s.defaultB, state, shadowed);
  }

  /** Taken back, the rewrite of a script is the script. */
  lemma ScriptBack(ss: seq<Stmt>, state: seq<string>)
    requires forall i :: 0 <= i < |ss| ==> ClearStmt(ss[i], state)
    ensures BackBlock(TransScript(ss, state)) == ss
  {
    hide TransStmt, BackStmt, ClearStmt;
    forall i | 0 <= i < |ss| ensures BackStmt(TransStmt(ss[i], state, [])) == ss[i] {
      StmtBack(ss[i], state, []);
    }
  }
}
