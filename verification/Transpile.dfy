/** The reactivity rewrite (crates/eronom-frontend/src/transpile.rs:389-711) and the proof that it
    preserves meaning: a script over plain state variables, and its rewrite over cells reached
    through erm, give the same values, the same effects and the same contents of the state. */
module Transpile {
  import opened Options
  import opened Ast
  import opened Script

  // ---------------------------------------------------------------- the rewrite

  predicate Reactive(x: string, state: seq<string>, shadowed: seq<string>)
  {
    x in state && x !in shadowed
  }

  // erm.f(x, more...)
  function ErmCall(f: string, x: string, loc: Location, more: seq<Expr>): Expr
  {
    Call(Get(Variable("erm", loc), f), [Variable(x, loc)] + more)
  }

  function Delta(op: string): Option<Expr>
  {
    if op == "++" then Some(Literal("1")) else if op == "--" then Some(Literal("-1")) else None
  }

  // What a statement of a block adds to the names that shadow.
  function Declared(s: Stmt): seq<string>
  {
    if s.VarDecl? then [s.name] else []
  }

  function TransExpr(e: Expr, state: seq<string>, shadowed: seq<string>): Expr
    decreases e, 1
  {
    match e
    case Literal(_) => e
    case Variable(x, loc) => if Reactive(x, state, shadowed) then ErmCall("get", x, loc, []) else e
    case Assign(x, val, loc) =>
      var new_val := TransExpr(val, state, shadowed);
      if Reactive(x, state, shadowed) then ErmCall("set", x, loc, [new_val]) else Assign(x, new_val, loc)
    case Binary(l, op, r) => Binary(TransExpr(l, state, shadowed), op, TransExpr(r, state, shadowed))
    case Logical(l, op, r) => Logical(TransExpr(l, state, shadowed), op, TransExpr(r, state, shadowed))
    case Unary(op, x) => Unary(op, TransExpr(x, state, shadowed))
    case Prefix(op, x) =>
      if x.Variable? && Reactive(x.name, state, shadowed) && Delta(op).Some?
        then ErmCall("update_pre", x.name, x.loc, [Delta(op).value])
      else Prefix(op, TransExpr(x, state, shadowed))
    case Postfix(op, x) =>
      if x.Variable? && Reactive(x.name, state, shadowed) && Delta(op).Some?
        then ErmCall("update", x.name, x.loc, [Delta(op).value])
      else Postfix(op, TransExpr(x, state, shadowed))
    case Ternary(c, t, f) =>
      Ternary(TransExpr(c, state, shadowed), TransExpr(t, state, shadowed), TransExpr(f, state, shadowed))
    case Call(callee, args) => Call(TransExpr(callee, state, shadowed), TransExprs(args, state, shadowed))
    case Get(obj, prop) =>
      if obj.Variable? && Reactive(obj.name, state, shadowed) && prop == "value"
        then ErmCall("get", obj.name, obj.loc, [])
      else Get(TransExpr(obj, state, shadowed), prop)
    case Set(obj, prop, val) =>
      var new_val := TransExpr(val, state, shadowed);
      if obj.Variable? && Reactive(obj.name, state, shadowed) && prop == "value"
        then ErmCall("set", obj.name, obj.loc, [new_val])
      else Set(TransExpr(obj, state, shadowed), prop, new_val)
    case Array(es) => Array(TransExprs(es, state, shadowed))
    case Object(ps) => Object(TransPairs(ps, state, shadowed))
    case Function(ps, body, isAsync, isSync) => Function(ps, TransStmt(body, state, shadowed + ps), isAsync, isSync)
    case GetIndex(obj, idx) => GetIndex(TransExpr(obj, state, shadowed), TransExpr(idx, state, shadowed))
    case SetIndex(obj, idx, val) =>
      SetIndex(TransExpr(obj, state, shadowed), TransExpr(idx, state, shadowed), TransExpr(val, state, shadowed))
    case StructInst(name, ps, loc) => StructInst(name, TransPairs(ps, state, shadowed), loc)
    case TypeCast(x, ty, loc) => TypeCast(TransExpr(x, state, shadowed), ty, loc)
    case Spawn(x) => Spawn(TransExpr(x, state, shadowed))
    case Await(x) => Await(TransExpr(x, state, shadowed))
    case New(x) => New(TransExpr(x, state, shadowed))
  }

  function TransExprs(es: seq<Expr>, state: seq<string>, shadowed: seq<string>): (r: seq<Expr>)
    ensures |r| == |es| && forall i :: 0 <= i < |es| ==> r[i] == TransExpr(es[i], state, shadowed)
    decreases es, 0
  {
    seq(|es|, i requires 0 <= i < |es| => TransExpr(es[i], state, shadowed))
  }

  function TransPairs(ps: seq<(string, Expr)>, state: seq<string>, shadowed: seq<string>): (r: seq<(string, Expr)>)
    ensures |r| == |ps|
    ensures forall i :: 0 <= i < |ps| ==>
      (assert ps decreases to ps[i]; r[i] == (ps[i].0, TransExpr(ps[i].1, state, shadowed)))
    decreases ps, 0
  {
    seq(|ps|, i requires 0 <= i < |ps| =>
      assert ps decreases to ps[i];
      (ps[i].0, TransExpr(ps[i].1, state, shadowed)))
  }

  function TransBlock(ss: seq<Stmt>, state: seq<string>, shadowed: seq<string>): seq<Stmt>
    decreases ss, 0
  {
    if ss == [] then []
      else [TransStmt(ss[0], state, shadowed)] + TransBlock(ss[1..], state, shadowed + Declared(ss[0]))
  }

  function TransOpt(s: Option<Stmt>, state: seq<string>, shadowed: seq<string>): Option<Stmt>
    decreases s, 0
  {
    if s.Some? then Some(TransStmt(s.value, state, shadowed)) else None
  }

  function TransCatch(c: Option<(string, Stmt)>, state: seq<string>, shadowed: seq<string>): Option<(string, Stmt)>
    decreases c, 0
  {
    if c.Some? then
      assert c decreases to c.value;
      Some((c.value.0, TransStmt(c.value.1, state, shadowed + [c.value.0])))
    else None
  }

  function TransCases(cs: seq<SwitchCase>, state: seq<string>, shadowed: seq<string>): (r: seq<SwitchCase>)
    ensures |r| == |cs|
    ensures forall i :: 0 <= i < |cs| ==>
      r[i] == SwitchCase(TransExprs(cs[i].values, state, shadowed), TransStmt(cs[i].body, state, shadowed))
    decreases cs, 0
  {
    seq(|cs|, i requires 0 <= i < |cs| =>
      assert cs decreases to cs[i];
      SwitchCase(TransExprs(cs[i].values, state, shadowed), TransStmt(cs[i].body, state, shadowed)))
  }

  function TransStmt(s: Stmt, state: seq<string>, shadowed: seq<string>): Stmt
    decreases s, 1
  {
    match s
    case ExprStmt(e) => ExprStmt(TransExpr(e, state, shadowed))
    case Print(e) => Print(TransExpr(e, state, shadowed))
    case Block(ss) => Block(TransBlock(ss, state, shadowed))
    case VarDecl(x, isConst, init, loc) => VarDecl(x, isConst, TransExpr(init, state, shadowed), loc)
    case If(c, t, f) => If(TransExpr(c, state, shadowed), TransStmt(t, state, shadowed), TransOpt(f, state, shadowed))
    case While(c, b) => While(TransExpr(c, state, shadowed), TransStmt(b, state, shadowed))
    case For(x, start, end, b) =>
      For(x, TransExpr(start, state, shadowed), TransExpr(end, state, shadowed), TransStmt(b, state, shadowed + [x]))
    case ForIn(x, iter, b) => ForIn(x, TransExpr(iter, state, shadowed), TransStmt(b, state, shadowed + [x]))
    case Return(e, loc) => Return(if e.Some? then Some(TransExpr(e.value, state, shadowed)) else None, loc)
    case Throw(e) => Throw(TransExpr(e, state, shadowed))
    case Try(t, c, f) =>
      Try(TransStmt(t, state, shadowed), TransCatch(c, state, shadowed), TransOpt(f, state, shadowed))
    case Switch(e, cs, d) =>
      Switch(TransExpr(e, state, shadowed), TransCases(cs, state, shadowed), TransOpt(d, state, shadowed))
    case Export(inner) => Export(TransStmt(inner, state, shadowed))
    case Concurrent(b) => Concurrent(TransStmt(b, state, shadowed))
    case Sync(b) => Sync(TransStmt(b, state, shadowed))
    case _ => s
  }

  // ---------------------------------------------------------------- which scripts

  // Is x used in a place where nothing inside the expression or statement binds it?
  predicate UsesExpr(e: Expr, x: string)
    decreases e, 1
  {
    match e
    case Literal(_) => false
    case Variable(y, _) => y == x
    case Assign(y, val, _) => y == x || UsesExpr(val, x)
    case Binary(l, _, r) => UsesExpr(l, x) || UsesExpr(r, x)
    case Logical(l, _, r) => UsesExpr(l, x) || UsesExpr(r, x)
    case Unary(_, i) => UsesExpr(i, x)
    case Prefix(_, i) => UsesExpr(i, x)
    case Postfix(_, i) => UsesExpr(i, x)
    case Ternary(c, t, f) => UsesExpr(c, x) || UsesExpr(t, x) || UsesExpr(f, x)
    case Call(callee, args) => UsesExpr(callee, x) || UsesAny(args, x)
    case Get(obj, _) => UsesExpr(obj, x)
    case Set(obj, _, val) => UsesExpr(obj, x) || UsesExpr(val, x)
    case Array(es) => UsesAny(es, x)
    case Object(ps) => UsesPairs(ps, x)
    case Function(ps, body, _, _) => x !in ps && UsesStmt(body, x)
    case GetIndex(obj, idx) => UsesExpr(obj, x) || UsesExpr(idx, x)
    case SetIndex(obj, idx, val) => UsesExpr(obj, x) || UsesExpr(idx, x) || UsesExpr(val, x)
    case StructInst(_, ps, _) => UsesPairs(ps, x)
    case Spawn(i) => UsesExpr(i, x)
    case TypeCast(i, _, _) => UsesExpr(i, x)
    case Await(i) => UsesExpr(i, x)
    case New(i) => UsesExpr(i, x)
  }

  predicate UsesAny(es: seq<Expr>, x: string)
    decreases es, 0
  {
    exists i :: 0 <= i < |es| && UsesExpr(es[i], x)
  }

  predicate UsesPairs(ps: seq<(string, Expr)>, x: string)
    decreases ps, 0
  {
    exists i :: 0 <= i < |ps| && (assert ps decreases to ps[i]; UsesExpr(ps[i].1, x))
  }

  predicate UsesStmt(s: Stmt, x: string)
    decreases s, 1
  {
    match s
    case ExprStmt(e) => UsesExpr(e, x)
    case Print(e) => UsesExpr(e, x)
    case VarDecl(_, _, init, _) => UsesExpr(init, x)
    case Block(ss) => UsesBlock(ss, x)
    case If(c, t, f) => UsesExpr(c, x) || UsesStmt(t, x) || UsesOpt(f, x)
    case While(c, b) => UsesExpr(c, x) || UsesStmt(b, x)
    case For(v, start, end, b) => UsesExpr(start, x) || UsesExpr(end, x) || (v != x && UsesStmt(b, x))
    case ForIn(v, iter, b) => UsesExpr(iter, x) || (v != x && UsesStmt(b, x))
    case Throw(e) => UsesExpr(e, x)
    case Try(t, c, f) => UsesStmt(t, x) || UsesCatch(c, x) || UsesOpt(f, x)
    case Switch(e, cs, d) => UsesExpr(e, x) || UsesCases(cs, x) || UsesOpt(d, x)
    case Return(e, _) => e.Some? && UsesExpr(e.value, x)
    case Export(inner) => UsesStmt(inner, x)
    case Concurrent(b) => UsesStmt(b, x)
    case Sync(b) => UsesStmt(b, x)
    case _ => false
  }

  predicate UsesBlock(ss: seq<Stmt>, x: string)
    decreases ss, 0
  {
    ss != [] && (UsesStmt(ss[0], x) || (x !in Declared(ss[0]) && UsesBlock(ss[1..], x)))
  }

  predicate UsesOpt(s: Option<Stmt>, x: string)
    decreases s, 0
  {
    s.Some? && UsesStmt(s.value, x)
  }

  predicate UsesCatch(c: Option<(string, Stmt)>, x: string)
    decreases c, 0
  {
    c.Some? && (assert c decreases to c.value; c.value.0 != x && UsesStmt(c.value.1, x))
  }

  predicate UsesCases(cs: seq<SwitchCase>, x: string)
    decreases cs, 0
  {
    exists i :: 0 <= i < |cs| && (assert cs decreases to cs[i]; UsesAny(cs[i].values, x) || UsesStmt(cs[i].body, x))
  }

  // Reads and writes of x.value for a reactive x.
  predicate ReadsCell(e: Expr, state: seq<string>, shadowed: seq<string>)
  {
    && ((e.Get? && e.prop == "value") || (e.Set? && e.prop == "value"))
    && e.obj.Variable? && Reactive(e.obj.name, state, shadowed)
  }

  // The script does not bind erm or assign to it; no export declares a state variable that is not
  // shadowed already, since an exported declaration is not taken into the list of shadowing names; and
  // no declared function with the name of such a variable uses that name, since it is taken into the
  // list after the function only; and x.value is not stepped by ++ or --, since the rewrite does that
  // to a call.
  predicate LocalFine(n: Node, state: seq<string>, shadowed: seq<string>)
  {
    match n
    case E(Assign(x, _, _)) => x != "erm"
    case E(Prefix(_, x)) => !(x.Variable? && x.name == "erm") && !ReadsCell(x, state, shadowed)
    case E(Postfix(_, x)) => !(x.Variable? && x.name == "erm") && !ReadsCell(x, state, shadowed)
    case E(Function(ps, _, _, _)) => "erm" !in ps
    case S(VarDecl(x, _, init, _)) =>
      x != "erm" && (init.Function? && Reactive(x, state, shadowed) ==> !UsesExpr(init, x))
    case S(For(x, _, _, _)) => x != "erm"
    case S(ForIn(x, _, _)) => x != "erm"
    case S(Try(_, c, _)) => c.Some? ==> c.value.0 != "erm"
    case S(Export(inner)) => inner.VarDecl? ==> !Reactive(inner.name, state, shadowed)
    case _ => true
  }

  // What shadows at the i-th statement of a block.
  function Before(ss: seq<Stmt>, i: nat, shadowed: seq<string>): seq<string>
    requires i <= |ss|
  {
    if i == 0 then shadowed else Before(ss, i - 1, shadowed) + Declared(ss[i - 1])
  }

  // What shadows at the i-th child of a node.
  function Under(n: Node, i: nat, shadowed: seq<string>): seq<string>
  {
    match n
    case E(Function(ps, _, _, _)) => shadowed + ps
    case S(Block(ss)) => if i <= |ss| then Before(ss, i, shadowed) else shadowed
    case S(For(x, _, _, _)) => if i == 2 then shadowed + [x] else shadowed
    case S(ForIn(x, _, _)) => if i == 1 then shadowed + [x] else shadowed
    case S(Try(_, c, _)) => if i == 1 && c.Some? then shadowed + [c.value.0] else shadowed
    case _ => shadowed
  }

  ghost predicate FineExpr(e: Expr, state: seq<string>, shadowed: seq<string>)
    decreases e
  {
    && LocalFine(E(e), state, shadowed)
    && forall i :: 0 <= i < |Children(E(e))| ==>
         (ExprPartSmaller(e, i);
          match Children(E(e))[i]
          case E(x) => FineExpr(x, state, Under(E(e), i, shadowed))
          case S(t) => FineStmt(t, state, Under(E(e), i, shadowed)))
  }

  ghost predicate FineStmt(s: Stmt, state: seq<string>, shadowed: seq<string>)
    decreases s
  {
    && LocalFine(S(s), state, shadowed)
    && forall i :: 0 <= i < |Children(S(s))| ==>
         (StmtPartSmaller(s, i);
          match Children(S(s))[i]
          case E(x) => FineExpr(x, state, Under(S(s), i, shadowed))
          case S(t) => FineStmt(t, state, Under(S(s), i, shadowed)))
  }

  ghost predicate Fine(n: Node, state: seq<string>, shadowed: seq<string>)
  {
    match n case E(x) => FineExpr(x, state, shadowed) case S(t) => FineStmt(t, state, shadowed)
  }

  lemma FineInside(n: Node, state: seq<string>, shadowed: seq<string>)
    requires Fine(n, state, shadowed)
    ensures LocalFine(n, state, shadowed)
    ensures forall i :: 0 <= i < |Children(n)| ==> Fine(Children(n)[i], state, Under(n, i, shadowed))
  {
    hide LocalFine, Children, Under;
  }

  // Nothing new shadows inside.
  predicate Level(n: Node)
  {
    match n
    case E(e) => !e.Function?
    case S(s) => !s.Block? && !s.For? && !s.ForIn? && !s.Try?
  }

  lemma FineLevel(n: Node, c: Node, state: seq<string>, shadowed: seq<string>)
    requires Fine(n, state, shadowed) && Level(n) && c in Children(n)
    ensures Fine(c, state, shadowed)
  {
    hide LocalFine, Children, Fine;
    FineInside(n, state, shadowed);
    var i :| 0 <= i < |Children(n)| && Children(n)[i] == c;
    assert Under(n, i, shadowed) == shadowed;
  }

  ghost predicate Included(a: seq<string>, b: seq<string>)
  {
    forall x :: x in a ==> x in b
  }

  lemma {:induction false} BeforeIncluded(ss: seq<Stmt>, i: nat, a: seq<string>, b: seq<string>)
    requires i <= |ss| && Included(a, b)
    ensures Included(Before(ss, i, a), Before(ss, i, b))
    decreases i
  {
    hide Declared;
    if i > 0 {
      BeforeIncluded(ss, i - 1, a, b);
    }
  }

  lemma UnderIncluded(n: Node, i: nat, a: seq<string>, b: seq<string>)
    requires Included(a, b)
    ensures Included(Under(n, i, a), Under(n, i, b))
  {
    hide Before;
    if n.S? && n.stmt.Block? && i <= |n.stmt.stmts| {
      BeforeIncluded(n.stmt.stmts, i, a, b);
    }
  }

  lemma LocalMore(n: Node, state: seq<string>, a: seq<string>, b: seq<string>)
    requires LocalFine(n, state, a) && Included(a, b)
    ensures LocalFine(n, state, b)
  {
    hide UsesExpr;
  }

  // Where more is shadowed, less has to be said.
  lemma {:induction false} FineExprMore(e: Expr, state: seq<string>, a: seq<string>, b: seq<string>)
    requires FineExpr(e, state, a) && Included(a, b)
    ensures FineExpr(e, state, b)
    decreases e
  {
    hide LocalFine, Children, Under, FineStmt, Included;
    LocalMore(E(e), state, a, b);
    forall i | 0 <= i < |Children(E(e))| ensures Fine(Children(E(e))[i], state, Under(E(e), i, b)) {
      ExprPartSmaller(e, i);
      UnderIncluded(E(e), i, a, b);
      match Children(E(e))[i]
      case E(x) => FineExprMore(x, state, Under(E(e), i, a), Under(E(e), i, b));
      case S(t) => FineStmtMore(t, state, Under(E(e), i, a), Under(E(e), i, b));
    }
  }

  lemma {:induction false} FineStmtMore(s: Stmt, state: seq<string>, a: seq<string>, b: seq<string>)
    requires FineStmt(s, state, a) && Included(a, b)
    ensures FineStmt(s, state, b)
    decreases s
  {
    hide LocalFine, Children, Under, FineExpr, Included;
    LocalMore(S(s), state, a, b);
    forall i | 0 <= i < |Children(S(s))| ensures Fine(Children(S(s))[i], state, Under(S(s), i, b)) {
      StmtPartSmaller(s, i);
      UnderIncluded(S(s), i, a, b);
      match Children(S(s))[i]
      case E(x) => FineExprMore(x, state, Under(S(s), i, a), Under(S(s), i, b));
      case S(t) => FineStmtMore(t, state, Under(S(s), i, a), Under(S(s), i, b));
    }
  }

  // ---------------------------------------------------------------- names that do not matter

  // The two lists shadow the same names; they may differ in x where x is not used or no state variable.
  ghost predicate Alike(state: seq<string>, a: seq<string>, b: seq<string>, x: string, used: bool)
  {
    (forall y :: y != x ==> (y in a <==> y in b)) && (used && x in state ==> (x in a <==> x in b))
  }

  lemma AlikeMore(state: seq<string>, a: seq<string>, b: seq<string>, x: string, used: bool, more: seq<string>,
      inside: bool)
    requires Alike(state, a, b, x, used) && (inside && x !in more ==> used)
    ensures Alike(state, a + more, b + more, x, inside)
  {
  }

  lemma AlikeName(a: seq<string>, b: seq<string>, x: string, used: bool, y: string, state: seq<string>)
    requires Alike(state, a, b, x, used) && (y == x ==> used)
    ensures Reactive(y, state, a) == Reactive(y, state, b)
  {
  }

  lemma {:induction false} SameExpr(e: Expr, state: seq<string>, a: seq<string>, b: seq<string>, x: string)
    requires Alike(state, a, b, x, UsesExpr(e, x))
    ensures TransExpr(e, state, a) == TransExpr(e, state, b)
    decreases e, 1
  {
    hide Reactive, TransStmt, ErmCall, Delta, UsesStmt;
    match e
    case Literal(_) =>
    case Variable(y, _) => AlikeName(a, b, x, y == x, y, state);
    case Assign(_, _, _) => SameAccess(e, state, a, b, x);
    case Get(_, _) => SameAccess(e, state, a, b, x);
    case Set(_, _, _) => SameAccess(e, state, a, b, x);
    case Prefix(_, i) => SameStep(e, i, state, a, b, x);
    case Postfix(_, i) => SameStep(e, i, state, a, b, x);
    case Function(ps, body, _, _) =>
      AlikeMore(state, a, b, x, UsesExpr(e, x), ps, UsesStmt(body, x));
      SameStmt(body, state, a + ps, b + ps, x);
    case _ => SamePlain(e, state, a, b, x);
  }

  lemma {:induction false} SameAccess(e: Expr, state: seq<string>, a: seq<string>, b: seq<string>, x: string)
    requires (e.Assign? || e.Get? || e.Set?) && Alike(state, a, b, x, UsesExpr(e, x))
    ensures TransExpr(e, state, a) == TransExpr(e, state, b)
    decreases e, 0
  {
    hide Reactive, TransStmt, ErmCall, UsesStmt, Delta;
    if !e.Get? {
      SameExpr(e.val, state, a, b, x);
    }
    if e.Assign? {
      AlikeName(a, b, x, UsesExpr(e, x), e.target, state);
    } else {
      SameExpr(e.obj, state, a, b, x);
      if e.obj.Variable? {
        AlikeName(a, b, x, UsesExpr(e, x), e.obj.name, state);
      }
    }
  }

  // The expressions that are rewritten part by part.
  lemma {:induction false} SamePlain(e: Expr, state: seq<string>, a: seq<string>, b: seq<string>, x: string)
    requires !e.Variable? && !e.Assign? && !e.Get? && !e.Set? && !e.Prefix? && !e.Postfix? && !e.Function?
    requires Alike(state, a, b, x, UsesExpr(e, x))
    ensures TransExpr(e, state, a) == TransExpr(e, state, b)
    decreases e, 0
  {
    hide Reactive, TransStmt, ErmCall, Delta, UsesStmt;
    match e
    case Literal(_) =>
    case Binary(l, _, r) => SameExpr(l, state, a, b, x); SameExpr(r, state, a, b, x);
    case Logical(l, _, r) => SameExpr(l, state, a, b, x); SameExpr(r, state, a, b, x);
    case Unary(_, i) => SameExpr(i, state, a, b, x);
    case Ternary(c, t, f) => SameExpr(c, state, a, b, x); SameExpr(t, state, a, b, x); SameExpr(f, state, a, b, x);
    case Call(callee, args) => SameExpr(callee, state, a, b, x); SameExprs(args, state, a, b, x);
    case Array(es) => SameExprs(es, state, a, b, x);
    case Object(ps) => SamePairs(ps, state, a, b, x);
    case GetIndex(obj, idx) => SameExpr(obj, state, a, b, x); SameExpr(idx, state, a, b, x);
    case SetIndex(obj, idx, val) =>
      SameExpr(obj, state, a, b, x);
      SameExpr(idx, state, a, b, x);
      SameExpr(val, state, a, b, x);
    case StructInst(_, ps, _) => SamePairs(ps, state, a, b, x);
    case Spawn(i) => SameExpr(i, state, a, b, x);
    case TypeCast(i, _, _) => SameExpr(i, state, a, b, x);
    case Await(i) => SameExpr(i, state, a, b, x);
    case New(i) => SameExpr(i, state, a, b, x);
  }

  lemma {:induction false} SameStep(e: Expr, i: Expr, state: seq<string>, a: seq<string>, b: seq<string>, x: string)
    requires (e.Prefix? || e.Postfix?) && i == e.inner && Alike(state, a, b, x, UsesExpr(i, x))
    ensures TransExpr(e, state, a) == TransExpr(e, state, b)
    decreases e, 0
  {
    hide Reactive, TransStmt, ErmCall, Delta, UsesStmt;
    SameExpr(i, state, a, b, x);
    if i.Variable? { AlikeName(a, b, x, UsesExpr(i, x), i.name, state); }
  }

  lemma {:induction false} SameExprs(es: seq<Expr>, state: seq<string>, a: seq<string>, b: seq<string>, x: string)
    requires Alike(state, a, b, x, UsesAny(es, x))
    ensures TransExprs(es, state, a) == TransExprs(es, state, b)
    decreases es, 0
  {
    hide TransExpr, UsesExpr;
    forall i | 0 <= i < |es| ensures TransExpr(es[i], state, a) == TransExpr(es[i], state, b) {
      SameExpr(es[i], state, a, b, x);
    }
  }

  lemma {:induction false} SamePairs(ps: seq<(string, Expr)>, state: seq<string>, a: seq<string>, b: seq<string>,
      x: string)
    requires Alike(state, a, b, x, UsesPairs(ps, x))
    ensures TransPairs(ps, state, a) == TransPairs(ps, state, b)
    decreases ps, 0
  {
    hide TransExpr, UsesExpr;
    forall i | 0 <= i < |ps| ensures TransPairs(ps, state, a)[i] == TransPairs(ps, state, b)[i] {
      assert ps decreases to ps[i];
      SameExpr(ps[i].1, state, a, b, x);
    }
  }

  lemma {:induction false} SameStmt(s: Stmt, state: seq<string>, a: seq<string>, b: seq<string>, x: string)
    requires Alike(state, a, b, x, UsesStmt(s, x))
    ensures TransStmt(s, state, a) == TransStmt(s, state, b)
    decreases s, 1
  {
    hide TransExpr, UsesExpr;
    match s
    case ExprStmt(e) => SameExpr(e, state, a, b, x);
    case Print(e) => SameExpr(e, state, a, b, x);
    case VarDecl(_, _, init, _) => SameExpr(init, state, a, b, x);
    case Block(ss) => SameBlock(ss, state, a, b, x);
    case If(c, t, f) => SameExpr(c, state, a, b, x); SameStmt(t, state, a, b, x); SameOpt(f, state, a, b, x);
    case While(c, t) => SameExpr(c, state, a, b, x); SameStmt(t, state, a, b, x);
    case For(v, start, end, t) =>
      SameExpr(start, state, a, b, x);
      SameExpr(end, state, a, b, x);
      AlikeMore(state, a, b, x, UsesStmt(s, x), [v], UsesStmt(t, x));
      SameStmt(t, state, a + [v], b + [v], x);
    case ForIn(v, iter, t) =>
      SameExpr(iter, state, a, b, x);
      AlikeMore(state, a, b, x, UsesStmt(s, x), [v], UsesStmt(t, x));
      SameStmt(t, state, a + [v], b + [v], x);
    case Throw(e) => SameExpr(e, state, a, b, x);
    case Try(t, c, f) => SameStmt(t, state, a, b, x); SameCatch(c, state, a, b, x); SameOpt(f, state, a, b, x);
    case Switch(e, cs, d) => SameExpr(e, state, a, b, x); SameCases(cs, state, a, b, x); SameOpt(d, state, a, b, x);
    case Return(e, _) => if e.Some? { SameExpr(e.value, state, a, b, x); }
    case Export(inner) => SameStmt(inner, state, a, b, x);
    case Concurrent(t) => SameStmt(t, state, a, b, x);
    case Sync(t) => SameStmt(t, state, a, b, x);
    case _ =>
  }

  lemma {:induction false} SameBlock(ss: seq<Stmt>, state: seq<string>, a: seq<string>, b: seq<string>, x: string)
    requires Alike(state, a, b, x, UsesBlock(ss, x))
    ensures TransBlock(ss, state, a) == TransBlock(ss, state, b)
    decreases ss, 0
  {
    hide TransStmt, UsesStmt;
    if ss != [] {
      SameStmt(ss[0], state, a, b, x);
      AlikeMore(state, a, b, x, UsesBlock(ss, x), Declared(ss[0]), UsesBlock(ss[1..], x));
      SameBlock(ss[1..], state, a + Declared(ss[0]), b + Declared(ss[0]), x);
    }
  }

  lemma {:induction false} SameOpt(s: Option<Stmt>, state: seq<string>, a: seq<string>, b: seq<string>, x: string)
    requires Alike(state, a, b, x, UsesOpt(s, x))
    ensures TransOpt(s, state, a) == TransOpt(s, state, b)
    decreases s, 0
  {
    hide TransStmt, UsesStmt;
    if s.Some? {
      SameStmt(s.value, state, a, b, x);
    }
  }

  lemma {:induction false} SameCatch(c: Option<(string, Stmt)>, state: seq<string>, a: seq<string>, b: seq<string>,
      x: string)
    requires Alike(state, a, b, x, UsesCatch(c, x))
    ensures TransCatch(c, state, a) == TransCatch(c, state, b)
    decreases c, 0
  {
    hide TransStmt, UsesStmt;
    if c.Some? {
      assert c decreases to c.value;
      AlikeMore(state, a, b, x, UsesCatch(c, x), [c.value.0], UsesStmt(c.value.1, x));
      SameStmt(c.value.1, state, a + [c.value.0], b + [c.value.0], x);
    }
  }

  lemma {:induction false} SameCases(cs: seq<SwitchCase>, state: seq<string>, a: seq<string>, b: seq<string>, x: string)
    requires Alike(state, a, b, x, UsesCases(cs, x))
    ensures TransCases(cs, state, a) == TransCases(cs, state, b)
    decreases cs, 0
  {
    hide TransStmt, TransExpr, UsesStmt, UsesExpr;
    forall i | 0 <= i < |cs| ensures TransCases(cs, state, a)[i] == TransCases(cs, state, b)[i] {
      assert cs decreases to cs[i];
      SameExprs(cs[i].values, state, a, b, x);
      SameStmt(cs[i].body, state, a, b, x);
    }
  }

  // ---------------------------------------------------------------- states and their images

  ghost predicate PlaceOk(m: Machine, state: seq<string>, env: Env, x: string, size: int)
    requires x in env.vars
  {
    env.vars[x] < size && (env.vars[x] == m.k ==> x == "erm")
      && (env.vars[x] < m.k <==> Reactive(x, state, env.shadowed))
  }

  // State variables that are not shadowed live in the first k places, everything else behind; erm
  // has the place k to itself.
  ghost predicate EnvOk(m: Machine, state: seq<string>, env: Env, size: int)
  {
    && "erm" in env.vars && env.vars["erm"] == m.k < size
    && (forall x :: x in env.vars ==> PlaceOk(m, state, env, x, size))
    && (forall x :: Reactive(x, state, env.shadowed) ==> x in env.vars)
  }

  ghost predicate ValueOk(m: Machine, state: seq<string>, v: Value, size: int)
  {
    match v
    case Prim(_) => true
    case Ref(_) => true
    case Closure(ps, body, env) =>
      EnvOk(m, state, env, size) && FineStmt(body, state, env.shadowed + ps) && "erm" !in ps
    case Signal(_) => false
    case Erm => true
    case ErmFn(_) => true
  }

  ghost predicate AllOk(m: Machine, state: seq<string>, vs: seq<Value>, size: int)
  {
    forall i :: 0 <= i < |vs| ==> ValueOk(m, state, vs[i], size)
  }

  ghost predicate PropsOk(m: Machine, state: seq<string>, props: map<string, Value>, size: int)
  {
    forall key :: key in props ==> ValueOk(m, state, props[key], size)
  }

  // A state of the script before the rewrite.
  ghost predicate StateOk(m: Machine, state: seq<string>, st: State)
  {
    && m.k < |st.store| && st.store[m.k] == Erm && st.cells == []
    && (forall i :: 0 <= i < |st.store| && i != m.k ==> ValueOk(m, state, st.store[i], |st.store|))
    && (forall a :: 0 <= a < |st.heap| ==> PropsOk(m, state, st.heap[a], |st.store|))
    && AllOk(m, state, st.out, |st.store|)
  }

  // The image of a value: a closure's body is rewritten.
  function TVal(state: seq<string>, v: Value): Value
  {
    match v
    case Closure(ps, body, env) => Closure(ps, TransStmt(body, state, env.shadowed + ps), env)
    case _ => v
  }

  function TVals(state: seq<string>, vs: seq<Value>): (r: seq<Value>)
    ensures |r| == |vs| && forall i :: 0 <= i < |vs| ==> r[i] == TVal(state, vs[i])
  {
    seq(|vs|, i requires 0 <= i < |vs| => TVal(state, vs[i]))
  }

  function TProps(state: seq<string>, props: map<string, Value>): map<string, Value>
  {
    map key | key in props :: TVal(state, props[key])
  }

  function TStore(m: Machine, state: seq<string>, store: seq<Value>): (r: seq<Value>)
    ensures |r| == |store| && forall i :: 0 <= i < |store| ==>
      r[i] == if i < m.k then Signal(i) else TVal(state, store[i])
  {
    seq(|store|, i requires 0 <= i < |store| => if i < m.k then Signal(i) else TVal(state, store[i]))
  }

  function THeap(state: seq<string>, heap: seq<map<string, Value>>): (r: seq<map<string, Value>>)
    ensures |r| == |heap| && forall i :: 0 <= i < |heap| ==> r[i] == TProps(state, heap[i])
  {
    seq(|heap|, i requires 0 <= i < |heap| => TProps(state, heap[i]))
  }

  // The image of a state: the first k places hold signals, and what they held is in the cells.
  function TState(m: Machine, state: seq<string>, st: State): State
  {
    State(TStore(m, state, st.store), if m.k <= |st.store| then TVals(state, st.store[..m.k]) else [],
          THeap(state, st.heap), TVals(state, st.out))
  }

  function TResult(m: Machine, state: seq<string>, r: Result): Result
  {
    match r
    case Val(v, st) => Val(TVal(state, v), TState(m, state, st))
    case Raise(e, st) => Raise(TVal(state, e), TState(m, state, st))
    case Timeout => Timeout
  }

  function TResults(m: Machine, state: seq<string>, r: Results): Results
  {
    match r
    case Vals(vs, st) => Vals(TVals(state, vs), TState(m, state, st))
    case Raised(e, st) => Raised(TVal(state, e), TState(m, state, st))
    case TimedOut => TimedOut
  }

  function TDone(m: Machine, state: seq<string>, d: Done): Done
  {
    match d
    case Normal(env, st) => Normal(env, TState(m, state, st))
    case Broke(st) => Broke(TState(m, state, st))
    case Continued(st) => Continued(TState(m, state, st))
    case Returned(v, st) => Returned(TVal(state, v), TState(m, state, st))
    case Threw(e, st) => Threw(TVal(state, e), TState(m, state, st))
    case Exhausted => Exhausted
  }

  // The outcome is a good state that has grown.
  ghost predicate Grew(m: Machine, state: seq<string>, v: Value, st: State, size: int)
  {
    ValueOk(m, state, v, |st.store|) && StateOk(m, state, st) && size <= |st.store|
  }

  ghost predicate ResultOk(m: Machine, state: seq<string>, r: Result, size: int)
  {
    match r
    case Val(v, st) => Grew(m, state, v, st, size)
    case Raise(e, st) => Grew(m, state, e, st, size)
    case Timeout => true
  }

  ghost predicate ResultsOk(m: Machine, state: seq<string>, r: Results, size: int)
  {
    match r
    case Vals(vs, st) => AllOk(m, state, vs, |st.store|) && StateOk(m, state, st) && size <= |st.store|
    case Raised(e, st) => Grew(m, state, e, st, size)
    case TimedOut => true
  }

  ghost predicate DoneOk(m: Machine, state: seq<string>, d: Done, shadowed: seq<string>, size: int)
  {
    match d
    case Normal(env, st) =>
      EnvOk(m, state, env, |st.store|) && env.shadowed == shadowed && StateOk(m, state, st) && size <= |st.store|
    case Broke(st) => StateOk(m, state, st) && size <= |st.store|
    case Continued(st) => StateOk(m, state, st) && size <= |st.store|
    case Returned(v, st) => Grew(m, state, v, st, size)
    case Threw(e, st) => Grew(m, state, e, st, size)
    case Exhausted => true
  }

  // The literals 1 and -1 denote the steps of ++ and --.
  ghost predicate StepsOk(m: Machine)
  {
    m.literal("1") == 1 && m.literal("-1") == -1
  }

  // ---------------------------------------------------------------- images of the primitive steps

  lemma EnvGrows(m: Machine, state: seq<string>, env: Env, a: int, b: int)
    requires EnvOk(m, state, env, a) && a <= b
    ensures EnvOk(m, state, env, b)
  {
    hide TVal;
    forall x | x in env.vars ensures PlaceOk(m, state, env, x, b) {
      assert PlaceOk(m, state, env, x, a);
    }
  }

  lemma ValueGrows(m: Machine, state: seq<string>, v: Value, a: int, b: int)
    requires ValueOk(m, state, v, a) && a <= b
    ensures ValueOk(m, state, v, b)
  {
    hide EnvOk, TVal, FineStmt;
    if v.Closure? {
      EnvGrows(m, state, v.env, a, b);
    }
  }

  lemma AllGrow(m: Machine, state: seq<string>, vs: seq<Value>, a: int, b: int)
    requires AllOk(m, state, vs, a) && a <= b
    ensures AllOk(m, state, vs, b)
  {
    hide ValueOk;
    forall i | 0 <= i < |vs| ensures ValueOk(m, state, vs[i], b) {
      ValueGrows(m, state, vs[i], a, b);
    }
  }

  lemma ViewKept(state: seq<string>, v: Value)
    ensures ViewOf(TVal(state, v)) == ViewOf(v)
  {
    hide TransStmt;
  }

  // Reading a variable: a reactive one denotes its signal in the image, any other its image.
  lemma LookupSim(m: Machine, state: seq<string>, x: string, env: Env, st: State)
    requires EnvOk(m, state, env, |st.store|) && StateOk(m, state, st)
    ensures ResultOk(m, state, Lookup(m, x, env, st), |st.store|)
    ensures !Reactive(x, state, env.shadowed) ==>
      Lookup(m, x, env, TState(m, state, st)) == TResult(m, state, Lookup(m, x, env, st))
    ensures Reactive(x, state, env.shadowed) ==>
      && x in env.vars && env.vars[x] < m.k && Lookup(m, x, env, st) == Val(st.store[env.vars[x]], st)
      && Lookup(m, x, env, TState(m, state, st)) == Val(Signal(env.vars[x]), TState(m, state, st))
      && TState(m, state, st).cells[env.vars[x]] == TVal(state, st.store[env.vars[x]])
  {
    hide TransStmt, FineStmt;
    if x in env.vars {
      assert PlaceOk(m, state, env, x, |st.store|);
    }
  }

  // Replacing a place of the store.
  lemma StoreAt(m: Machine, state: seq<string>, st: State, l: nat, v: Value)
    requires StateOk(m, state, st) && l < |st.store| && l != m.k && ValueOk(m, state, v, |st.store|)
    ensures StateOk(m, state, st.(store := st.store[l := v]))
    ensures
      var t := TState(m, state, st);
      TState(m, state, st.(store := st.store[l := v])) ==
        if l < m.k then t.(cells := t.cells[l := TVal(state, v)]) else t.(store := t.store[l := TVal(state, v)])
  {
    hide ValueOk, TVal;
    var st' := st.(store := st.store[l := v]);
    var t, t' := TState(m, state, st), TState(m, state, st');
    assert t'.store == if l < m.k then t.store else t.store[l := TVal(state, v)];
    assert t'.cells == if l < m.k then t.cells[l := TVal(state, v)] else t.cells;
  }

  lemma FailSim(m: Machine, state: seq<string>, st: State)
    requires StateOk(m, state, st)
    ensures Fail(m, TState(m, state, st)) == TResult(m, state, Fail(m, st))
      && ResultOk(m, state, Fail(m, st), |st.store|)
  {
    hide TransStmt, FineStmt;
  }

  lemma StateSize(m: Machine, state: seq<string>, st: State)
    requires StateOk(m, state, st)
    ensures m.k < |st.store| && |TState(m, state, st).cells| == m.k && TState(m, state, st).store[m.k] == Erm
  {
    hide TransStmt, FineStmt;
  }

  lemma StoreSim(m: Machine, state: seq<string>, x: string, v: Value, env: Env, st: State)
    requires EnvOk(m, state, env, |st.store|) && StateOk(m, state, st) && ValueOk(m, state, v, |st.store|) && x != "erm"
    ensures ResultOk(m, state, Store(m, x, v, env, st), |st.store|)
    ensures !Reactive(x, state, env.shadowed) ==>
      Store(m, x, TVal(state, v), env, TState(m, state, st)) == TResult(m, state, Store(m, x, v, env, st))
    ensures Reactive(x, state, env.shadowed) ==>
      && x in env.vars && env.vars[x] < m.k
      && CallErm(m, "set", [Signal(env.vars[x]), TVal(state, v)], TState(m, state, st))
        == TResult(m, state, Store(m, x, v, env, st))
  {
    hide StateOk, ValueOk, TVal;
    FailSim(m, state, st);
    if x in env.vars {
      assert PlaceOk(m, state, env, x, |st.store|);
      StateSize(m, state, st);
      StoreAt(m, state, st, env.vars[x], v);
    }
  }

  lemma PrimOk(m: Machine, state: seq<string>, p: int, size: int)
    ensures ValueOk(m, state, Prim(p), size) && TVal(state, Prim(p)) == Prim(p)
  {
    hide TransStmt, FineStmt;
  }

  lemma PlaceValue(m: Machine, state: seq<string>, st: State, l: nat)
    requires StateOk(m, state, st) && l < |st.store| && l != m.k
    ensures ValueOk(m, state, st.store[l], |st.store|)
    ensures TState(m, state, st).store[l] == if l < m.k then Signal(l) else TVal(state, st.store[l])
    ensures l < m.k ==> TState(m, state, st).cells[l] == TVal(state, st.store[l])
  {
    hide TVal, FineStmt;
  }

  lemma SizesKept(m: Machine, state: seq<string>, st: State)
    ensures |TState(m, state, st).store| == |st.store| && |TState(m, state, st).heap| == |st.heap|
  {
    hide TVal;
  }

  lemma BumpSim(m: Machine, state: seq<string>, op: string, x: string, loc: Location, env: Env, st: State, pre: bool)
    requires EnvOk(m, state, env, |st.store|) && StateOk(m, state, st) && x != "erm" && StepsOk(m)
    ensures ResultOk(m, state, BumpVar(m, op, Variable(x, loc), env, st, pre), |st.store|)
    ensures !Reactive(x, state, env.shadowed) ==>
      BumpVar(m, op, Variable(x, loc), env, TState(m, state, st), pre)
        == TResult(m, state, BumpVar(m, op, Variable(x, loc), env, st, pre))
    ensures Reactive(x, state, env.shadowed) && Delta(op).Some? ==>
      && x in env.vars && env.vars[x] < m.k
      && CallErm(m, if pre then "update_pre" else "update", [Signal(env.vars[x]), Prim(if op == "++" then 1 else -1)],
        TState(m, state, st))
           == TResult(m, state, BumpVar(m, op, Variable(x, loc), env, st, pre))
  {
    hide StateOk, ValueOk, TState, TVal, TransStmt;
    StateSize(m, state, st);
    FailSim(m, state, st);
    if x in env.vars && Delta(op).Some? {
      assert PlaceOk(m, state, env, x, |st.store|);
      var l := env.vars[x];
      PlaceValue(m, state, st, l);
      var before := st.store[l];
      ViewKept(state, before);
      var b := m.bump(ViewOf(before), if op == "++" then 1 else -1);
      if b.Some? {
        PrimOk(m, state, b.value, |st.store|);
        StoreAt(m, state, st, l, Prim(b.value));
        SizesKept(m, state, st);
      }
    }
  }

  lemma PropsImage(state: seq<string>, props: map<string, Value>, key: string, v: Value)
    ensures TProps(state, props[key := v]) == TProps(state, props)[key := TVal(state, v)]
    ensures key in TProps(state, props) <==> key in props
    ensures key in props ==> TProps(state, props)[key] == TVal(state, props[key])
    ensures |TProps(state, props)| == |props|
  {
    hide TVal;
    assert TProps(state, props).Keys == props.Keys;
    assert |TProps(state, props).Keys| == |TProps(state, props)| && |props.Keys| == |props|;
  }

  lemma GetPropSim(m: Machine, state: seq<string>, obj: Value, prop: string, st: State)
    requires StateOk(m, state, st) && ValueOk(m, state, obj, |st.store|)
    ensures GetProp(m, TVal(state, obj), prop, TState(m, state, st)) == TResult(m, state, GetProp(m, obj, prop, st))
    ensures ResultOk(m, state, GetProp(m, obj, prop, st), |st.store|)
  {
    hide TransStmt, FineStmt;
    if obj.Ref? && obj.addr < |st.heap| {
      PropsImage(state, st.heap[obj.addr], prop, obj);
      assert PropsOk(m, state, st.heap[obj.addr], |st.store|);
    }
  }

  lemma HeapSet(m: Machine, state: seq<string>, st: State, a: nat, props: map<string, Value>)
    requires StateOk(m, state, st) && a <= |st.heap| && PropsOk(m, state, props, |st.store|)
    ensures
      var heap := if a == |st.heap| then st.heap + [props] else st.heap[a := props];
      var t := TState(m, state, st);
      StateOk(m, state, st.(heap := heap)) &&
      TState(m, state, st.(heap := heap)) ==
        t.(heap := if a == |st.heap| then t.heap + [TProps(state, props)] else t.heap[a := TProps(state, props)])
  {
    hide PropsOk, ValueOk, TProps, TVal;
    var heap := if a == |st.heap| then st.heap + [props] else st.heap[a := props];
    var t := TState(m, state, st);
    assert THeap(state, heap) == if a == |st.heap| then t.heap + [TProps(state, props)]
      else t.heap[a := TProps(state, props)];
  }

  lemma SetPropSim(m: Machine, state: seq<string>, obj: Value, prop: string, v: Value, st: State)
    requires StateOk(m, state, st) && ValueOk(m, state, obj, |st.store|) && ValueOk(m, state, v, |st.store|)
    ensures SetProp(m, TVal(state, obj), prop, TVal(state, v), TState(m, state, st))
      == TResult(m, state, SetProp(m, obj, prop, v, st))
    ensures ResultOk(m, state, SetProp(m, obj, prop, v, st), |st.store|)
  {
    hide TransStmt, FineStmt;
    if obj.Ref? && obj.addr < |st.heap| {
      PropsImage(state, st.heap[obj.addr], prop, v);
      assert PropsOk(m, state, st.heap[obj.addr], |st.store|);
      HeapSet(m, state, st, obj.addr, st.heap[obj.addr][prop := v]);
    }
  }

  lemma NewObjectSim(m: Machine, state: seq<string>, props: map<string, Value>, st: State)
    requires StateOk(m, state, st) && PropsOk(m, state, props, |st.store|)
    ensures NewObject(TProps(state, props), TState(m, state, st)) == TResult(m, state, NewObject(props, st))
    ensures ResultOk(m, state, NewObject(props, st), |st.store|)
  {
    hide PropsOk, TProps, TransStmt, FineStmt;
    HeapSet(m, state, st, |st.heap|, props);
  }

  lemma {:induction false} ElementsSim(m: Machine, state: seq<string>, vs: seq<Value>, i: nat, size: int)
    requires AllOk(m, state, vs, size)
    ensures Elements(m, TVals(state, vs), i) == TProps(state, Elements(m, vs, i))
      && PropsOk(m, state, Elements(m, vs, i), size)
    decreases |vs|
  {
    hide ValueOk, TVal;
    if vs == [] {
      assert TProps(state, map[]) == map[];
    } else {
      assert TVals(state, vs)[1..] == TVals(state, vs[1..]);
      ElementsSim(m, state, vs[1..], i + 1, size);
      PropsImage(state, Elements(m, vs[1..], i + 1), m.indexKey(i), vs[0]);
    }
  }

  lemma {:induction false} FieldsSim(m: Machine, state: seq<string>, ps: seq<(string, Expr)>, qs: seq<(string, Expr)>,
      vs: seq<Value>, size: int)
    requires AllOk(m, state, vs, size) && |ps| == |qs| && forall i :: 0 <= i < |ps| ==> ps[i].0 == qs[i].0
    ensures Fields(qs, TVals(state, vs)) == TProps(state, Fields(ps, vs)) && PropsOk(m, state, Fields(ps, vs), size)
    decreases |ps|
  {
    hide ValueOk, TVal;
    if ps == [] || vs == [] {
      assert TProps(state, map[]) == map[];
    } else {
      assert TVals(state, vs)[1..] == TVals(state, vs[1..]);
      FieldsSim(m, state, ps[1..], qs[1..], vs[1..], size);
      PropsImage(state, Fields(ps[1..], vs[1..]), ps[0].0, vs[0]);
    }
  }

  lemma {:induction false} ItemsSim(m: Machine, state: seq<string>, props: map<string, Value>, i: nat, size: int)
    requires PropsOk(m, state, props, size)
    ensures Items(m, TProps(state, props), i) == TVals(state, Items(m, props, i))
      && AllOk(m, state, Items(m, props, i), size)
    decreases |props| - i
  {
    hide ValueOk, TVal;
    PropsImage(state, props, m.indexKey(i), Prim(0));
    if i < |props| && m.indexKey(i) in props {
      ItemsSim(m, state, props, i + 1, size);
    }
  }

  lemma OutSim(m: Machine, state: seq<string>, st: State, v: Value)
    requires StateOk(m, state, st) && ValueOk(m, state, v, |st.store|)
    ensures StateOk(m, state, st.(out := st.out + [v]))
    ensures
      var t := TState(m, state, st);
      TState(m, state, st.(out := st.out + [v])) == t.(out := t.out + [TVal(state, v)])
  {
    hide ValueOk, PropsOk, TVal;
    assert TVals(state, st.out + [v]) == TVals(state, st.out) + [TVal(state, v)];
  }

  lemma BindEnv(m: Machine, state: seq<string>, env: Env, x: string, n: nat)
    requires EnvOk(m, state, env, n) && x != "erm"
    ensures EnvOk(m, state, Env(env.vars[x := n], env.shadowed + [x]), n + 1)
  {
    hide TVal;
    var env' := Env(env.vars[x := n], env.shadowed + [x]);
    forall y | y in env'.vars ensures PlaceOk(m, state, env', y, n + 1) {
      if y != x {
        assert PlaceOk(m, state, env, y, n);
      }
    }
  }

  lemma StateGrows(m: Machine, state: seq<string>, st: State, v: Value)
    requires StateOk(m, state, st) && ValueOk(m, state, v, |st.store| + 1)
    ensures StateOk(m, state, st.(store := st.store + [v]))
  {
    hide ValueOk;
    var n := |st.store|;
    forall i | 0 <= i < n + 1 && i != m.k ensures ValueOk(m, state, (st.store + [v])[i], n + 1) {
      if i < n {
        ValueGrows(m, state, st.store[i], n, n + 1);
      }
    }
    forall a | 0 <= a < |st.heap| ensures PropsOk(m, state, st.heap[a], n + 1) {
      assert PropsOk(m, state, st.heap[a], n);
      forall key | key in st.heap[a] ensures ValueOk(m, state, st.heap[a][key], n + 1) {
        ValueGrows(m, state, st.heap[a][key], n, n + 1);
      }
    }
    AllGrow(m, state, st.out, n, n + 1);
  }

  // The value may be a closure that sees its own place.
  lemma BindAny(m: Machine, state: seq<string>, env: Env, st: State, x: string, v: Value)
    requires EnvOk(m, state, env, |st.store|) && StateOk(m, state, st) && ValueOk(m, state, v, |st.store| + 1)
      && x != "erm"
    ensures
      var (env', st') := Bind(env, st, x, v);
      && Bind(env, TState(m, state, st), x, TVal(state, v)) == (env', TState(m, state, st'))
      && EnvOk(m, state, env', |st'.store|) && StateOk(m, state, st') && |st'.store| == |st.store| + 1
  {
    hide EnvOk, ValueOk, TVal, PropsOk, THeap;
    var (env', st') := Bind(env, st, x, v);
    BindEnv(m, state, env, x, |st.store|);
    StateGrows(m, state, st, v);
    var t, t' := TState(m, state, st), TState(m, state, st');
    assert t'.store == t.store + [TVal(state, v)];
    assert st'.store[..m.k] == st.store[..m.k];
  }

  // Binding a name: it is new in the store, and shadows.
  lemma BindSim(m: Machine, state: seq<string>, env: Env, st: State, x: string, v: Value)
    requires EnvOk(m, state, env, |st.store|) && StateOk(m, state, st) && ValueOk(m, state, v, |st.store|) && x != "erm"
    ensures
      var (env', st') := Bind(env, st, x, v);
      && Bind(env, TState(m, state, st), x, TVal(state, v)) == (env', TState(m, state, st'))
      && EnvOk(m, state, env', |st'.store|) && StateOk(m, state, st') && |st'.store| == |st.store| + 1
  {
    hide EnvOk, StateOk, ValueOk, TState, TVal;
    ValueGrows(m, state, v, |st.store|, |st.store| + 1);
    BindAny(m, state, env, st, x, v);
  }

  // A declared function sees its own name; that its rewrite does not know the name as shadowed makes
  // no difference, since it does not use it or it is no state variable.
  lemma DeclareSim(m: Machine, state: seq<string>, env: Env, st: State, x: string, f: Expr)
    requires EnvOk(m, state, env, |st.store|) && StateOk(m, state, st) && x != "erm"
    requires f.Function? && FineStmt(f.body, state, env.shadowed + f.params) && "erm" !in f.params
    requires Reactive(x, state, env.shadowed) ==> !UsesExpr(f, x)
    ensures
      var f' := TransExpr(f, state, env.shadowed);
      var (env', st') := Declare(env, st, x, f);
      && f'.Function? && Declare(env, TState(m, state, st), x, f') == (env', TState(m, state, st'))
      && EnvOk(m, state, env', |st'.store|) && StateOk(m, state, st') && |st'.store| == |st.store| + 1
  {
    hide EnvOk, StateOk, TState, FineStmt, TransStmt, UsesStmt;
    var env' := Env(env.vars[x := |st.store|], env.shadowed + [x]);
    var v := Closure(f.params, f.body, env');
    BindEnv(m, state, env, x, |st.store|);
    FineStmtMore(f.body, state, env.shadowed + f.params, env'.shadowed + f.params);
    assert ValueOk(m, state, v, |st.store| + 1);
    BindAny(m, state, env, st, x, v);
    SameStmt(f.body, state, env.shadowed + f.params, env'.shadowed + f.params, x);
    SizesKept(m, state, st);
  }

  lemma {:induction false} BindAllSim(m: Machine, state: seq<string>, env: Env, st: State, xs: seq<string>,
      vs: seq<Value>)
    requires EnvOk(m, state, env, |st.store|) && StateOk(m, state, st) && AllOk(m, state, vs, |st.store|)
      && "erm" !in xs
    ensures
      var (env', st') := BindAll(m, env, st, xs, vs);
      && BindAll(m, env, TState(m, state, st), xs, TVals(state, vs)) == (env', TState(m, state, st'))
      && EnvOk(m, state, env', |st'.store|) && StateOk(m, state, st') && |st.store| <= |st'.store|
        && env'.shadowed == env.shadowed + xs
    decreases |xs|
  {
    hide EnvOk, StateOk, ValueOk, TState, TVal, TransStmt;
    if xs == [] {
      assert env.shadowed + xs == env.shadowed;
    } else {
      var v := if vs == [] then Prim(m.nothing) else vs[0];
      PrimOk(m, state, m.nothing, |st.store|);
      BindSim(m, state, env, st, xs[0], v);
      var (env', st') := Bind(env, st, xs[0], v);
      var rest := if vs == [] then [] else vs[1..];
      assert TVals(state, rest) == if vs == [] then [] else TVals(state, vs)[1..];
      AllGrow(m, state, rest, |st.store|, |st'.store|);
      BindAllSim(m, state, env', st', xs[1..], rest);
      assert env.shadowed + [xs[0]] + xs[1..] == env.shadowed + xs;
    }
  }

  // ---------------------------------------------------------------- calls of the runtime

  lemma ErmCallee(m: Machine, f: string, loc: Location, env: Env, t: State, fuel: nat)
    requires "erm" in env.vars && env.vars["erm"] == m.k < |t.store| && t.store[m.k] == Erm
    requires f in ["get", "set", "update", "update_pre"]
    ensures EvalExpr(m, Get(Variable("erm", loc), f), env, t, fuel) == Val(ErmFn(f), t)
  {
    hide EvalStmt, Apply;
    var e := Get(Variable("erm", loc), f);
    var x := Variable("erm", loc);
    assert EvalExpr(m, x, env, t, fuel) == Val(Erm, t);
    assert EvalOperands(m, e, 1, env, t, fuel) == Vals([], t);
    assert EvalOperands(m, e, 0, env, t, fuel) == Vals([Erm] + [], t);
    assert EvalOperator(m, e, env, t, fuel) == GetProp(m, Erm, f, t);
  }

  // erm.f(x): the runtime gets what x denotes.
  lemma ErmApplied(m: Machine, f: string, x: string, loc: Location, env: Env, t: State, arg: Value, fuel: nat)
    requires "erm" in env.vars && env.vars["erm"] == m.k < |t.store| && t.store[m.k] == Erm
    requires f in ["get", "set", "update", "update_pre"] && Lookup(m, x, env, t) == Val(arg, t)
    ensures EvalExpr(m, ErmCall(f, x, loc, []), env, t, fuel) == Apply(m, ErmFn(f), [arg], t, fuel)
  {
    hide GetProp, Finish, CallErm, EvalStmt, EvalOperator, Apply;
    var e := ErmCall(f, x, loc, []);
    ErmCallee(m, f, loc, env, t, fuel);
    assert Operands(e) == [Get(Variable("erm", loc), f), Variable(x, loc)];
    assert EvalExpr(m, Variable(x, loc), env, t, fuel) == Val(arg, t);
    assert EvalOperands(m, e, 2, env, t, fuel) == Vals([], t);
    assert EvalOperands(m, e, 1, env, t, fuel) == Vals([arg] + [], t);
    assert EvalOperands(m, e, 0, env, t, fuel) == Vals([ErmFn(f)] + ([arg] + []), t);
    var vs := [ErmFn(f)] + ([arg] + []);
    assert vs[0] == ErmFn(f) && vs[1..] == [arg];
  }

  lemma ErmOne(m: Machine, f: string, x: string, loc: Location, env: Env, t: State, arg: Value, fuel: nat)
    requires "erm" in env.vars && env.vars["erm"] == m.k < |t.store| && t.store[m.k] == Erm
    requires f in ["get", "set", "update", "update_pre"] && Lookup(m, x, env, t) == Val(arg, t) && !arg.Closure?
    ensures EvalExpr(m, ErmCall(f, x, loc, []), env, t, fuel) == CallErm(m, f, [arg], t)
  {
    hide EvalStmt, EvalExpr, CallErm;
    ErmApplied(m, f, x, loc, env, t, arg, fuel);
    hide EvalExpr, Lookup, CallErm;
  }

  lemma LastOperand(m: Machine, e: Expr, i: nat, env: Env, t: State, fuel: nat)
    requires i + 1 == |Operands(e)|
    ensures EvalOperands(m, e, i, env, t, fuel) ==
      match EvalExpr(m, Operands(e)[i], env, t, fuel)
      case Val(v, t') => Vals([v], t')
      case Raise(v, t') => Raised(v, t')
      case Timeout => TimedOut
  {
    hide EvalExpr, Operands;
    match EvalExpr(m, Operands(e)[i], env, t, fuel) {
      case Val(v, t') =>
        assert EvalOperands(m, e, i + 1, env, t', fuel) == Vals([], t');
        assert [v] + [] == [v];
      case _ =>
    }
  }

  // erm.f(x, y): and the value of y.
  lemma ErmTwo(m: Machine, f: string, x: string, loc: Location, y: Expr, env: Env, t: State, arg: Value, fuel: nat)
    requires "erm" in env.vars && env.vars["erm"] == m.k < |t.store| && t.store[m.k] == Erm
    requires f in ["get", "set", "update", "update_pre"] && Lookup(m, x, env, t) == Val(arg, t) && !arg.Closure?
    ensures EvalExpr(m, ErmCall(f, x, loc, [y]), env, t, fuel) ==
      match EvalExpr(m, y, env, t, fuel)
      case Val(v, t') => CallErm(m, f, [arg, v], t')
      case r => r
  {
    hide GetProp, Finish, CallErm, EvalStmt, EvalOperator;
    var e := ErmCall(f, x, loc, [y]);
    ErmCallee(m, f, loc, env, t, fuel);
    assert Operands(e) == [Get(Variable("erm", loc), f), Variable(x, loc), y];
    assert EvalExpr(m, Variable(x, loc), env, t, fuel) == Val(arg, t);
    var r := EvalExpr(m, y, env, t, fuel);
    LastOperand(m, e, 2, env, t, fuel);
    match r {
      case Val(v, t') =>
        assert EvalOperands(m, e, 1, env, t, fuel) == Vals([arg] + [v], t');
        assert EvalOperands(m, e, 0, env, t, fuel) == Vals([ErmFn(f)] + ([arg] + [v]), t');
        var vs := [ErmFn(f)] + ([arg] + [v]);
        assert vs[0] == ErmFn(f) && vs[1..] == [arg, v];
      case Raise(v, t') =>
        assert EvalOperands(m, e, 1, env, t, fuel) == Raised(v, t');
        assert EvalOperands(m, e, 0, env, t, fuel) == Raised(v, t');
      case Timeout =>
        assert EvalOperands(m, e, 1, env, t, fuel) == TimedOut;
        assert EvalOperands(m, e, 0, env, t, fuel) == TimedOut;
    }
  }

  // ---------------------------------------------------------------- operators

  predicate IsOperator(e: Expr)
  {
    e.Binary? || e.Unary? || e.Call? || e.Get? || e.Set? || e.Array? || e.Object? || e.StructInst? || e.GetIndex?
      || e.SetIndex?
    || e.Spawn? || e.TypeCast? || e.Await? || e.New?
  }

  predicate SameNames(ps: seq<(string, Expr)>, qs: seq<(string, Expr)>)
  {
    |ps| == |qs| && forall i :: 0 <= i < |ps| ==> ps[i].0 == qs[i].0
  }

  // The same operator with other operands.
  predicate SameForm(e: Expr, e': Expr)
  {
    match e
    case Binary(_, op, _) => e'.Binary? && e'.op == op
    case Unary(op, _) => e'.Unary? && e'.op == op
    case Call(_, _) => e'.Call?
    case Get(_, prop) => e'.Get? && e'.prop == prop
    case Set(_, prop, _) => e'.Set? && e'.prop == prop
    case Array(_) => e'.Array?
    case Object(ps) => e'.Object? && SameNames(ps, e'.pairs)
    case StructInst(_, ps, _) => e'.StructInst? && SameNames(ps, e'.pairs)
    case GetIndex(_, _) => e'.GetIndex?
    case SetIndex(_, _, _) => e'.SetIndex?
    case Spawn(_) => e'.Spawn?
    case TypeCast(_, _, _) => e'.TypeCast?
    case Await(_) => e'.Await?
    case New(_) => e'.New?
    case _ => false
  }

  ghost predicate OperandsRewritten(e: Expr, e': Expr, state: seq<string>, shadowed: seq<string>)
  {
    |Operands(e')| == |Operands(e)| && forall i :: 0 <= i < |Operands(e)| ==>
      Operands(e')[i] == TransExpr(Operands(e)[i], state, shadowed)
  }

  lemma ListForm(e: Expr, state: seq<string>, shadowed: seq<string>)
    ensures e.Call? ==>
      TransExpr(e, state, shadowed) == Call(TransExpr(e.callee, state, shadowed), TransExprs(e.args, state, shadowed))
    ensures e.Array? ==> TransExpr(e, state, shadowed) == Array(TransExprs(e.elements, state, shadowed))
  {
    hide TransStmt, ErmCall, Delta;
  }

  lemma CallOperands(callee: Expr, args: seq<Expr>, callee': Expr, args': seq<Expr>, state: seq<string>,
      shadowed: seq<string>)
    requires callee' == TransExpr(callee, state, shadowed) && |args'| == |args|
    requires forall i :: 0 <= i < |args| ==> args'[i] == TransExpr(args[i], state, shadowed)
    ensures OperandsRewritten(Call(callee, args), Call(callee', args'), state, shadowed)
  {
    hide TransExpr;
    var a, b := Operands(Call(callee, args)), Operands(Call(callee', args'));
    assert a == [callee] + args && b == [callee'] + args';
    hide Operands;
    forall i | 0 <= i < |a| ensures b[i] == TransExpr(a[i], state, shadowed) {
      assert i > 0 ==> a[i] == args[i - 1] && b[i] == args'[i - 1];
    }
  }

  lemma ListRewritten(e: Expr, state: seq<string>, shadowed: seq<string>)
    requires e.Call? || e.Array?
    ensures SameForm(e, TransExpr(e, state, shadowed))
      && OperandsRewritten(e, TransExpr(e, state, shadowed), state, shadowed)
  {
    hide TransExpr;
    ListForm(e, state, shadowed);
    if e.Call? {
      hide OperandsRewritten, Operands;
      CallOperands(e.callee, e.args, TransExpr(e.callee, state, shadowed), TransExprs(e.args, state, shadowed), state,
        shadowed);
    }
  }

  lemma PairsRewritten(e: Expr, state: seq<string>, shadowed: seq<string>)
    requires e.Object? || e.StructInst?
    ensures SameForm(e, TransExpr(e, state, shadowed))
      && OperandsRewritten(e, TransExpr(e, state, shadowed), state, shadowed)
  {
    hide TransStmt;
    assert TransExpr(e, state, shadowed).pairs == TransPairs(e.pairs, state, shadowed);
  }

  lemma AccessRewritten(e: Expr, state: seq<string>, shadowed: seq<string>)
    requires (e.Get? || e.Set?) && !ReadsCell(e, state, shadowed)
    ensures SameForm(e, TransExpr(e, state, shadowed))
      && OperandsRewritten(e, TransExpr(e, state, shadowed), state, shadowed)
  {
    hide TransStmt;
    var e' := TransExpr(e, state, shadowed);
    assert e' == if e.Get? then Get(TransExpr(e.obj, state, shadowed), e.prop)
                 else Set(TransExpr(e.obj, state, shadowed), e.prop, TransExpr(e.val, state, shadowed));
  }

  lemma FixedRewritten(e: Expr, state: seq<string>, shadowed: seq<string>)
    requires e.Binary? || e.Unary? || e.GetIndex? || e.SetIndex? || e.Spawn? || e.TypeCast? || e.Await? || e.New?
    ensures SameForm(e, TransExpr(e, state, shadowed))
      && OperandsRewritten(e, TransExpr(e, state, shadowed), state, shadowed)
  {
    hide TransStmt;
    var e' := TransExpr(e, state, shadowed);
    assert |Operands(e')| == |Operands(e)|;
  }

  lemma OperatorRewritten(e: Expr, state: seq<string>, shadowed: seq<string>)
    requires IsOperator(e) && !ReadsCell(e, state, shadowed)
    ensures SameForm(e, TransExpr(e, state, shadowed))
      && OperandsRewritten(e, TransExpr(e, state, shadowed), state, shadowed)
  {
    hide SameForm, OperandsRewritten, TransExpr;
    if e.Call? || e.Array? {
      ListRewritten(e, state, shadowed);
    } else if e.Object? || e.StructInst? {
      PairsRewritten(e, state, shadowed);
    } else if e.Get? || e.Set? {
      AccessRewritten(e, state, shadowed);
    } else {
      FixedRewritten(e, state, shadowed);
    }
  }

  lemma ChildrenOfExpr(e: Expr)
    ensures forall n :: n in ExprParts(e) ==> n in Children(E(e))
  {
    hide ExprParts;
  }

  lemma ListOperand(e: Expr, i: nat)
    requires i < |Operands(e)| && (e.Call? || e.Array? || e.Object? || e.StructInst?)
    ensures E(Operands(e)[i]) in ExprParts(e)
  {
    if e.Call? {
      assert ExprParts(e)[i] == if i == 0 then E(e.callee) else ExprNodes(e.args)[i - 1];
    } else if e.Array? {
      assert ExprParts(e)[i] == ExprNodes(e.elements)[i];
    } else {
      assert ExprParts(e)[i] == PairNodes(e.pairs)[i];
    }
  }

  lemma FixedOperand(e: Expr, i: nat)
    requires i < |Operands(e)| && !e.Call? && !e.Array? && !e.Object? && !e.StructInst?
    ensures E(Operands(e)[i]) in ExprParts(e)
  {
    assert ExprParts(e)[i] == E(Operands(e)[i]);
  }

  lemma OperandInside(e: Expr, i: nat)
    requires i < |Operands(e)|
    ensures E(Operands(e)[i]) in Children(E(e))
  {
    hide Children, ExprParts, Operands;
    ChildrenOfExpr(e);
    if e.Call? || e.Array? || e.Object? || e.StructInst? {
      ListOperand(e, i);
    } else {
      FixedOperand(e, i);
    }
  }

  lemma FineOperands(e: Expr, state: seq<string>, shadowed: seq<string>)
    requires FineExpr(e, state, shadowed)
    ensures forall i :: 0 <= i < |Operands(e)| ==> FineExpr(Operands(e)[i], state, shadowed)
  {
    hide LocalFine, FineExpr, Children;
    forall i | 0 <= i < |Operands(e)| ensures FineExpr(Operands(e)[i], state, shadowed) {
      OperandInside(e, i);
      FineLevel(E(e), E(Operands(e)[i]), state, shadowed);
    }
  }

  lemma OptionSim(m: Machine, state: seq<string>, r: Option<int>, st: State)
    requires StateOk(m, state, st)
    ensures OfOption(m, r, TState(m, state, st)) == TResult(m, state, OfOption(m, r, st))
      && ResultOk(m, state, OfOption(m, r, st), |st.store|)
  {
    hide StateOk, TState, TVal, FineStmt;
    if r.Some? {
      PrimOk(m, state, r.value, |st.store|);
    } else {
      FailSim(m, state, st);
    }
  }

  lemma FinishSim(m: Machine, state: seq<string>, e: Expr, e': Expr, vs: seq<Value>, st: State)
    requires SameForm(e, e') && |vs| == |Operands(e)| == |Operands(e')|
    requires StateOk(m, state, st) && AllOk(m, state, vs, |st.store|)
    ensures Finish(m, e', TVals(state, vs), TState(m, state, st)) == TResult(m, state, Finish(m, e, vs, st))
    ensures ResultOk(m, state, Finish(m, e, vs, st), |st.store|)
  {
    hide StateOk, ValueOk, TState, TVal, GetProp, SetProp, NewObject, ViewOf, TransStmt;
    FailSim(m, state, st);
    forall i | 0 <= i < |vs| ensures ViewOf(TVal(state, vs[i])) == ViewOf(vs[i]) {
      ViewKept(state, vs[i]);
    }
    match e {
      case Binary(_, op, _) => OptionSim(m, state, m.binary(op, ViewOf(vs[0]), ViewOf(vs[1])), st);
      case Unary(op, _) => OptionSim(m, state, m.unary(op, ViewOf(vs[0])), st);
      case Get(_, prop) => GetPropSim(m, state, vs[0], prop, st);
      case GetIndex(_, _) => GetPropSim(m, state, vs[0], m.key(ViewOf(vs[1])), st);
      case Set(_, prop, _) => SetPropSim(m, state, vs[0], prop, vs[1], st);
      case SetIndex(_, _, _) => SetPropSim(m, state, vs[0], m.key(ViewOf(vs[1])), vs[2], st);
      case Array(_) =>
        ElementsSim(m, state, vs, 0, |st.store|);
        NewObjectSim(m, state, Elements(m, vs, 0), st);
      case Object(ps) =>
        FieldsSim(m, state, ps, e'.pairs, vs, |st.store|);
        NewObjectSim(m, state, Fields(ps, vs), st);
      case StructInst(_, ps, _) =>
        FieldsSim(m, state, ps, e'.pairs, vs, |st.store|);
        NewObjectSim(m, state, Fields(ps, vs), st);
      case _ =>
    }
  }

  // ---------------------------------------------------------------- the simulation: expressions

  // Evaluating the rewritten expression in the image gives the image of the result.
  ghost predicate ExprSim(m: Machine, state: seq<string>, e: Expr, env: Env, st: State, fuel: nat)
  {
    && EvalExpr(m, TransExpr(e, state, env.shadowed), env, TState(m, state, st), fuel)
      == TResult(m, state, EvalExpr(m, e, env, st, fuel))
    && ResultOk(m, state, EvalExpr(m, e, env, st, fuel), |st.store|)
  }

  ghost predicate Ready(m: Machine, state: seq<string>, env: Env, st: State)
  {
    EnvOk(m, state, env, |st.store|) && StateOk(m, state, st) && StepsOk(m)
  }

  lemma ConsVals(m: Machine, state: seq<string>, v: Value, vs: seq<Value>, size: int)
    requires ValueOk(m, state, v, size) && AllOk(m, state, vs, size)
    ensures TVals(state, [v] + vs) == [TVal(state, v)] + TVals(state, vs) && AllOk(m, state, [v] + vs, size)
  {
    hide ValueOk, TVal;
  }

  // The operands from i on, when the i-th and those behind it are simulated.
  lemma OperandsStep(m: Machine, state: seq<string>, e: Expr, e': Expr, i: nat, env: Env, st: State, fuel: nat)
    requires i < |Operands(e)| == |Operands(e')| && Operands(e')[i] == TransExpr(Operands(e)[i], state, env.shadowed)
    requires ExprSim(m, state, Operands(e)[i], env, st, fuel)
    requires
      var r := EvalExpr(m, Operands(e)[i], env, st, fuel);
      r.Val? ==>
        && EvalOperands(m, e', i + 1, env, TState(m, state, r.st), fuel)
          == TResults(m, state, EvalOperands(m, e, i + 1, env, r.st, fuel))
        && ResultsOk(m, state, EvalOperands(m, e, i + 1, env, r.st, fuel), |r.st.store|)
    ensures EvalOperands(m, e', i, env, TState(m, state, st), fuel)
      == TResults(m, state, EvalOperands(m, e, i, env, st, fuel))
    ensures ResultsOk(m, state, EvalOperands(m, e, i, env, st, fuel), |st.store|)
  {
    hide StateOk, TState, TVal, ValueOk, TransExpr, EvalExpr, Operands;
    var r := EvalExpr(m, Operands(e)[i], env, st, fuel);
    if r.Val? {
      var rs := EvalOperands(m, e, i + 1, env, r.st, fuel);
      if rs.Vals? {
        ValueGrows(m, state, r.v, |r.st.store|, |rs.st.store|);
        ConsVals(m, state, r.v, rs.vs, |rs.st.store|);
      }
    }
  }

  lemma ResultGrows(m: Machine, state: seq<string>, r: Result, a: int, b: int)
    requires ResultOk(m, state, r, a) && b <= a
    ensures ResultOk(m, state, r, b)
  {
    hide StateOk, ValueOk;
  }

  // In a good environment the reactive variables are the ones that live in state places.
  lemma StateVariable(m: Machine, state: seq<string>, x: Expr, env: Env, st: State)
    requires EnvOk(m, state, env, |st.store|) && x.Variable?
    ensures IsState(m, x, env) <==> Reactive(x.name, state, env.shadowed)
  {
    if x.name in env.vars {
      assert PlaceOk(m, state, env, x.name, |st.store|);
    }
  }

  // A get or set that is not a cell's .value is an operator before and after the rewrite.
  lemma PlainAccess(m: Machine, state: seq<string>, e: Expr, env: Env, st: State, fuel: nat)
    requires EnvOk(m, state, env, |st.store|) && (e.Get? || e.Set?) && !ReadsCell(e, state, env.shadowed)
    ensures EvalExpr(m, e, env, st, fuel) == EvalOperator(m, e, env, st, fuel)
    ensures forall t ::
      EvalExpr(m, TransExpr(e, state, env.shadowed), env, t, fuel)
      == EvalOperator(m, TransExpr(e, state, env.shadowed), env, t, fuel)
  {
    hide EnvOk, EvalOperator, EvalOperands, Apply, TransStmt;
    if e.obj.Variable? {
      StateVariable(m, state, e.obj, env, st);
    } else {
      assert !TransExpr(e.obj, state, env.shadowed).Variable?;
    }
  }

  lemma PlainOperator(m: Machine, e: Expr, env: Env, st: State, fuel: nat)
    requires IsOperator(e) && !e.Get? && !e.Set? && !e.Call?
    ensures EvalExpr(m, e, env, st, fuel) == EvalOperator(m, e, env, st, fuel)
  {
    hide EvalOperator, EvalOperands, Apply;
  }

  lemma ErmIsPlain(m: Machine, state: seq<string>, env: Env, size: int)
    requires EnvOk(m, state, env, size)
    ensures !Reactive("erm", state, env.shadowed)
  {
    assert PlaceOk(m, state, env, "erm", size);
  }

  // Reading a variable: in place, or through erm.get.
  lemma ReadSim(m: Machine, state: seq<string>, x: string, loc: Location, env: Env, st: State, fuel: nat)
    requires Ready(m, state, env, st)
    ensures
      var e' := if Reactive(x, state, env.shadowed) then ErmCall("get", x, loc, []) else Variable(x, loc);
      EvalExpr(m, e', env, TState(m, state, st), fuel) == TResult(m, state, Lookup(m, x, env, st))
    ensures ResultOk(m, state, Lookup(m, x, env, st), |st.store|)
  {
    hide StateOk, TState, TVal, ValueOk, EvalOperator, EvalOperands, Apply;
    StateSize(m, state, st);
    SizesKept(m, state, st);
    LookupSim(m, state, x, env, st);
    if Reactive(x, state, env.shadowed) {
      ErmOne(m, "get", x, loc, env, TState(m, state, st), Signal(env.vars[x]), fuel);
    }
  }

  lemma CellRead(m: Machine, state: seq<string>, e: Expr, env: Env, st: State, fuel: nat)
    requires m.k <= |st.store| && e.Get? && ReadsCell(e, state, env.shadowed) && IsState(m, e.obj, env)
    requires EvalExpr(m, ErmCall("get", e.obj.name, e.obj.loc, []), env, TState(m, state, st), fuel)
      == TResult(m, state, Lookup(m, e.obj.name, env, st))
    requires ResultOk(m, state, Lookup(m, e.obj.name, env, st), |st.store|)
    ensures ExprSim(m, state, e, env, st, fuel)
  {
    hide TState, EvalOperator, EvalOperands, Apply, Lookup, TransStmt, ResultOk, TResult;
    assert TransExpr(e, state, env.shadowed) == ErmCall("get", e.obj.name, e.obj.loc, []);
    assert EvalExpr(m, e, env, st, fuel) == Lookup(m, e.obj.name, env, st);
  }

  lemma FineChild(e: Expr, x: Expr, state: seq<string>, shadowed: seq<string>)
    requires FineExpr(e, state, shadowed) && E(x) in Children(E(e)) && !e.Function?
    ensures FineExpr(x, state, shadowed)
  {
    hide LocalFine, FineExpr, Children, FineStmt;
    FineLevel(E(e), E(x), state, shadowed);
  }

  // Writing to a variable: in place, or through erm.set.
  lemma WriteSim(m: Machine, state: seq<string>, x: string, loc: Location, val: Expr, env: Env, st: State, fuel: nat)
    requires Ready(m, state, env, st) && ExprSim(m, state, val, env, st, fuel) && x != "erm"
    ensures
      var r := EvalExpr(m, val, env, st, fuel);
      var done := match r case Val(v, st1) => Store(m, x, v, env, st1) case other => other;
      var r' := EvalExpr(m, TransExpr(val, state, env.shadowed), env, TState(m, state, st), fuel);
      && ResultOk(m, state, done, |st.store|)
      && (if Reactive(x, state, env.shadowed) then
            EvalExpr(m, ErmCall("set", x, loc, [TransExpr(val, state, env.shadowed)]), env, TState(m, state, st), fuel)
              == TResult(m, state, done)
          else (match r' case Val(v, st1) => Store(m, x, v, env, st1) case other => other) == TResult(m, state, done))
  {
    hide StateOk, TState, TVal, ValueOk, TransExpr, EvalExpr, CallErm, Store, Lookup, TransStmt;
    StateSize(m, state, st);
    SizesKept(m, state, st);
    LookupSim(m, state, x, env, st);
    if Reactive(x, state, env.shadowed) {
      ErmTwo(m, "set", x, loc, TransExpr(val, state, env.shadowed), env, TState(m, state, st), Signal(env.vars[x]),
        fuel);
    }
    match EvalExpr(m, val, env, st, fuel) {
      case Val(v, st1) =>
        EnvGrows(m, state, env, |st.store|, |st1.store|);
        StoreSim(m, state, x, v, env, st1);
        ResultGrows(m, state, Store(m, x, v, env, st1), |st1.store|, |st.store|);
      case _ =>
    }
  }

  lemma CellWritten(m: Machine, state: seq<string>, e: Expr, env: Env, st: State, fuel: nat)
    requires m.k <= |st.store| && e.Set? && ReadsCell(e, state, env.shadowed) && IsState(m, e.obj, env)
    requires
      var done := match EvalExpr(m, e.val, env, st, fuel) case Val(v, st1) =>
        Store(m, e.obj.name, v, env, st1) case other => other;
      && ResultOk(m, state, done, |st.store|)
      && EvalExpr(m, ErmCall("set", e.obj.name, e.obj.loc, [TransExpr(e.val, state, env.shadowed)]), env,
        TState(m, state, st), fuel) == TResult(m, state, done)
    ensures ExprSim(m, state, e, env, st, fuel)
  {
    hide TState, EvalOperator, EvalOperands, Apply, Store, TransStmt, ResultOk, TResult;
    assert TransExpr(e, state, env.shadowed)
      == ErmCall("set", e.obj.name, e.obj.loc, [TransExpr(e.val, state, env.shadowed)]);
  }

  // The names that shadow after a statement.
  function Declares(s: Stmt, shadowed: seq<string>): seq<string>
  {
    shadowed + Declared(s)
  }

  lemma SwitchRewritten(s: Stmt, state: seq<string>, shadowed: seq<string>)
    requires s.Switch?
    ensures TransStmt(s, state, shadowed)
      == Switch(TransExpr(s.e, state, shadowed), TransCases(s.cases, state, shadowed),
      TransOpt(s.defaultB, state, shadowed))
  {
    hide TransExpr;
  }

  lemma FinePart(s: Stmt, n: Node, state: seq<string>, shadowed: seq<string>)
    requires FineStmt(s, state, shadowed) && n in Children(S(s)) && Level(S(s))
    ensures Fine(n, state, shadowed)
  {
    hide LocalFine, FineStmt, FineExpr, Children;
    FineLevel(S(s), n, state, shadowed);
  }

  lemma {:induction false} CaseInside(cs: seq<SwitchCase>, i: nat)
    requires i < |cs|
    ensures S(cs[i].body) in CaseNodes(cs) && forall j :: 0 <= j < |cs[i].values| ==>
      E(cs[i].values[j]) in CaseNodes(cs)
  {
    if i == 0 {
      forall j | 0 <= j < |cs[0].values| ensures E(cs[0].values[j]) in CaseNodes(cs) {
        assert ExprNodes(cs[0].values)[j] == E(cs[0].values[j]);
      }
    } else {
      CaseInside(cs[1..], i - 1);
    }
  }

  lemma CaseFine(s: Stmt, i: nat, state: seq<string>, shadowed: seq<string>)
    requires s.Switch? && i < |s.cases| && FineStmt(s, state, shadowed)
    ensures FineStmt(s.cases[i].body, state, shadowed)
    ensures forall j :: 0 <= j < |s.cases[i].values| ==> FineExpr(s.cases[i].values[j], state, shadowed)
  {
    hide FineStmt, FineExpr, CaseNodes;
    CaseInside(s.cases, i);
    forall n | n in CaseNodes(s.cases) ensures Fine(n, state, shadowed) {
      assert n in Children(S(s));
      FinePart(s, n, state, shadowed);
    }
    assert Fine(S(s.cases[i].body), state, shadowed);
    forall j | 0 <= j < |s.cases[i].values| ensures FineExpr(s.cases[i].values[j], state, shadowed) {
      assert Fine(E(s.cases[i].values[j]), state, shadowed);
    }
  }

  lemma DoneGrows(m: Machine, state: seq<string>, d: Done, shadowed: seq<string>, a: int, b: int)
    requires DoneOk(m, state, d, shadowed, a) && b <= a
    ensures DoneOk(m, state, d, shadowed, b)
  {
    hide StateOk, EnvOk, ValueOk;
  }

  lemma EarlySim(m: Machine, state: seq<string>, r: Result, shadowed: seq<string>, size: int)
    requires !r.Val? && ResultOk(m, state, r, size)
    ensures Early(TResult(m, state, r)) == TDone(m, state, Early(r)) && DoneOk(m, state, Early(r), shadowed, size)
  {
    hide StateOk, EnvOk, ValueOk, TState, TVal;
  }

  ghost predicate StmtSim(m: Machine, state: seq<string>, s: Stmt, env: Env, st: State, fuel: nat)
  {
    && EvalStmt(m, TransStmt(s, state, env.shadowed), env, TState(m, state, st), fuel)
      == TDone(m, state, EvalStmt(m, s, env, st, fuel))
    && DoneOk(m, state, EvalStmt(m, s, env, st, fuel), Declares(s, env.shadowed), |st.store|)
  }

  lemma NoNames(s: Stmt, shadowed: seq<string>)
    ensures Declares(s, shadowed) == if s.VarDecl? then shadowed + [s.name] else shadowed
  {
  }

  // Leaving a scope.
  lemma LeaveSim(m: Machine, state: seq<string>, d: Done, shadowed: seq<string>, env: Env, a: int, size: int)
    requires DoneOk(m, state, d, shadowed, a) && EnvOk(m, state, env, size) && size <= a
    ensures Leave(TDone(m, state, d), env) == TDone(m, state, Leave(d, env))
      && DoneOk(m, state, Leave(d, env), env.shadowed, size)
    ensures OffBreak(TDone(m, state, d), env) == TDone(m, state, OffBreak(d, env))
      && DoneOk(m, state, OffBreak(d, env), env.shadowed, size)
  {
    hide StateOk, EnvOk, ValueOk, TState, TVal;
    if d.Normal? || d.Broke? {
      EnvGrows(m, state, env, size, |d.st.store|);
    }
  }

  // The catch clause.
  ghost function Caught(m: Machine, c: Option<(string, Stmt)>, tried: Done, env: Env, fuel: nat): Done
  {
    if tried.Threw? && c.Some? then
      (var (env', st') := Bind(env, tried.st, c.value.0, tried.e);
       Leave(EvalStmt(m, c.value.1, env', st', fuel), env))
    else tried
  }

  lemma FineAt(s: Stmt, i: nat, state: seq<string>, shadowed: seq<string>)
    requires FineStmt(s, state, shadowed) && i < |Children(S(s))|
    ensures Fine(Children(S(s))[i], state, Under(S(s), i, shadowed))
  {
    hide LocalFine, FineStmt, FineExpr, Children, Under;
    FineInside(S(s), state, shadowed);
  }

  lemma TryRewritten(s: Stmt, state: seq<string>, shadowed: seq<string>)
    requires s.Try?
    ensures TransStmt(s, state, shadowed)
      == Try(TransStmt(s.tryB, state, shadowed), TransCatch(s.catchB, state, shadowed),
      TransOpt(s.finallyB, state, shadowed))
  {
    hide TransExpr;
  }

  // What the finally block makes of it.
  ghost function Ended(m: Machine, f: Option<Stmt>, caught: Done, env: Env, fuel: nat): Done
  {
    if f.None? || caught.Exhausted? then caught
    else
      var last := Leave(EvalStmt(m, f.value, env, caught.st, fuel), env);
      if last.Normal? then Resume(caught, last.st) else last
  }

  lemma TryIs(m: Machine, s: Stmt, env: Env, st: State, fuel: nat)
    requires s.Try?
    ensures EvalStmt(m, s, env, st, fuel) ==
      Ended(m, s.finallyB, Caught(m, s.catchB, Leave(EvalStmt(m, s.tryB, env, st, fuel), env), env, fuel), env, fuel)
  {
    hide EvalExpr, EvalBlock, Leave, Resume;
  }

  lemma DoneState(m: Machine, state: seq<string>, d: Done, shadowed: seq<string>, size: int)
    requires DoneOk(m, state, d, shadowed, size) && !d.Exhausted?
    ensures StateOk(m, state, d.st) && size <= |d.st.store|
  {
    hide StateOk, EnvOk, ValueOk;
  }

  lemma ResumeSim(m: Machine, state: seq<string>, d: Done, last: Done, env: Env, size: int, mid: int)
    requires DoneOk(m, state, d, env.shadowed, size) && !d.Exhausted? && mid == |d.st.store| && size <= mid
    requires last.Normal? ==> StateOk(m, state, last.st) && mid <= |last.st.store|
    requires EnvOk(m, state, env, size)
    ensures last.Normal? ==>
      && Resume(TDone(m, state, d), TState(m, state, last.st)) == TDone(m, state, Resume(d, last.st))
      && DoneOk(m, state, Resume(d, last.st), env.shadowed, size)
  {
    hide StateOk, EnvOk, TState, TVal, ValueOk;
    if last.Normal? {
      match d {
        case Normal(e, _) => EnvGrows(m, state, e, mid, |last.st.store|);
        case Returned(v, _) => ValueGrows(m, state, v, mid, |last.st.store|);
        case Threw(v, _) => ValueGrows(m, state, v, mid, |last.st.store|);
        case _ =>
      }
    }
  }

  lemma HeapProps(m: Machine, state: seq<string>, st: State, a: nat)
    requires StateOk(m, state, st) && a < |st.heap|
    ensures PropsOk(m, state, st.heap[a], |st.store|) && TState(m, state, st).heap[a] == TProps(state, st.heap[a])
  {
    hide TVal, FineStmt;
  }

  lemma IfRewritten(s: Stmt, state: seq<string>, shadowed: seq<string>)
    requires s.If?
    ensures TransStmt(s, state, shadowed)
      == If(TransExpr(s.cond, state, shadowed), TransStmt(s.thenB, state, shadowed), TransOpt(s.elseB, state, shadowed))
  {
    hide TransExpr;
  }

  lemma NormalOk(m: Machine, state: seq<string>, env: Env, st: State, size: int)
    requires EnvOk(m, state, env, |st.store|) && StateOk(m, state, st) && size <= |st.store|
    ensures DoneOk(m, state, Normal(env, st), env.shadowed, size)
  {
    hide EnvOk, StateOk, FineStmt;
  }

  // The names a block has declared when it ends.
  function BlockNames(ss: seq<Stmt>, shadowed: seq<string>): seq<string>
    decreases |ss|
  {
    if ss == [] then shadowed else BlockNames(ss[1..], Declares(ss[0], shadowed))
  }

  ghost predicate BlockOk(m: Machine, state: seq<string>, d: Done, ss: seq<Stmt>, shadowed: seq<string>, size: int)
  {
    if d.Normal? then DoneOk(m, state, d, BlockNames(ss, shadowed), size) else DoneOk(m, state, d, shadowed, size)
  }

  lemma {:induction false} BeforeRest(ss: seq<Stmt>, i: nat, shadowed: seq<string>)
    requires i < |ss|
    ensures Before(ss[1..], i, Declares(ss[0], shadowed)) == Before(ss, i + 1, shadowed)
    decreases i
  {
    hide Declared;
    if i > 0 {
      BeforeRest(ss, i - 1, shadowed);
    } else {
      assert Before(ss, 0, shadowed) == shadowed;
    }
  }

  // An exported declaration: the binding stays, the list of shadowing names does not change.
  lemma ExportedEnv(m: Machine, state: seq<string>, env: Env, shadowed: seq<string>, x: string, size: int)
    requires EnvOk(m, state, env, size) && env.shadowed == shadowed + [x] && !Reactive(x, state, shadowed)
    ensures EnvOk(m, state, env.(shadowed := shadowed), size)
  {
    hide TVal;
    var env' := env.(shadowed := shadowed);
    forall y ensures Reactive(y, state, shadowed) <==> Reactive(y, state, env.shadowed) {
    }
    forall y | y in env'.vars ensures PlaceOk(m, state, env', y, size) {
      assert PlaceOk(m, state, env, y, size);
    }
  }

  lemma SimDeclared(m: Machine, state: seq<string>, s: Stmt, env: Env, st: State, fuel: nat)
    requires Ready(m, state, env, st) && FineStmt(s, state, env.shadowed) && s.VarDecl? && s.init.Function?
    ensures StmtSim(m, state, s, env, st, fuel)
  {
    hide StateOk, EnvOk, TState, FineStmt, FineExpr, EvalExpr, TransExpr, UsesExpr;
    FineInside(S(s), state, env.shadowed);
    assert Children(S(s))[0] == E(s.init);
    FinePart(s, E(s.init), state, env.shadowed);
    FineInside(E(s.init), state, env.shadowed);
    assert Children(E(s.init))[0] == S(s.init.body);
    assert Fine(S(s.init.body), state, env.shadowed + s.init.params);
    DeclareSim(m, state, env, st, s.name, s.init);
  }

  lemma FunctionsStay(e: Expr, state: seq<string>, shadowed: seq<string>)
    ensures TransExpr(e, state, shadowed).Function? <==> e.Function?
  {
    hide TransStmt, Delta, Reactive;
  }

  lemma WhileIs(m: Machine, state: seq<string>, s: Stmt, env: Env, st: State, fuel: nat)
    requires s.While? && m.k <= |st.store|
    requires EvalWhile(m, TransStmt(s, state, env.shadowed), env, TState(m, state, st), fuel)
      == TDone(m, state, EvalWhile(m, s, env, st, fuel))
    requires DoneOk(m, state, EvalWhile(m, s, env, st, fuel), env.shadowed, |st.store|)
    ensures StmtSim(m, state, s, env, st, fuel)
  {
    hide TState, EvalWhile, TransExpr, DoneOk, EvalExpr;
    NoNames(s, env.shadowed);
  }

  lemma SimInert(m: Machine, state: seq<string>, s: Stmt, env: Env, st: State, fuel: nat)
    requires Ready(m, state, env, st)
    requires s.Break? || s.Continue? || s.Import? || s.Struct? || s.Interface? || s.TypeAlias? || s.Enum?
    ensures StmtSim(m, state, s, env, st, fuel)
  {
    hide StateOk, EnvOk, TState, ValueOk, TransExpr, EvalExpr;
    NoNames(s, env.shadowed);
  }

  lemma ResultOfSim(m: Machine, state: seq<string>, d: Done, shadowed: seq<string>, size: int)
    requires DoneOk(m, state, d, shadowed, size)
    ensures ResultOf(m, TDone(m, state, d)) == TResult(m, state, ResultOf(m, d))
      && ResultOk(m, state, ResultOf(m, d), size)
  {
    hide StateOk, EnvOk, TState, TransStmt, FineStmt;
  }

  lemma KindKept(state: seq<string>, v: Value)
    ensures TVal(state, v).Closure? == v.Closure? && TVal(state, v).ErmFn? == v.ErmFn?
    ensures v.ErmFn? ==> TVal(state, v) == v
  {
    hide TransStmt;
  }

  lemma ArgumentSim(m: Machine, state: seq<string>, args: seq<Value>, i: nat, size: int)
    requires AllOk(m, state, args, size)
    ensures Argument(m, TVals(state, args), i) == TVal(state, Argument(m, args, i))
    ensures ValueOk(m, state, Argument(m, args, i), size)
  {
    hide TVal, ValueOk;
    PrimOk(m, state, m.nothing, size);
  }

  lemma DirectionSim(state: seq<string>, args: seq<Value>)
    ensures Direction(TVals(state, args)) == Direction(args)
  {
    hide TransStmt;
  }

  lemma GetPropStays(m: Machine, obj: Value, key: string, st: State)
    ensures GetProp(m, obj, key, st).Val? ==> GetProp(m, obj, key, st).st == st
  {
  }

  lemma ErmGetSim(m: Machine, state: seq<string>, x: Value, st: State)
    requires StateOk(m, state, st) && ValueOk(m, state, x, |st.store|)
    ensures ErmGet(m, TVal(state, x), TState(m, state, st)) == TResult(m, state, ErmGet(m, x, st))
    ensures ResultOk(m, state, ErmGet(m, x, st), |st.store|)
    ensures ErmGet(m, x, st).Val? ==> ErmGet(m, x, st).st == st
  {
    hide StateOk, TState, TransStmt, FineStmt, EnvOk, GetProp;
    FailSim(m, state, st);
    SizesKept(m, state, st);
    if x.Ref? && x.addr < |st.heap| {
      HeapProps(m, state, st, x.addr);
      PropsImage(state, st.heap[x.addr], "value", x);
      GetPropSim(m, state, x, "value", st);
      GetPropStays(m, x, "value", st);
    }
  }

  lemma SetPropSize(m: Machine, state: seq<string>, obj: Value, key: string, v: Value, st: State)
    ensures SetProp(m, obj, key, v, st).Val? ==> SetProp(m, obj, key, v, st).st.store == st.store
    ensures !SetProp(m, obj, key, v, st).Timeout?
  {
  }

  lemma ErmSetSim(m: Machine, state: seq<string>, x: Value, v: Value, st: State)
    requires StateOk(m, state, st) && ValueOk(m, state, x, |st.store|) && ValueOk(m, state, v, |st.store|)
    ensures ErmSet(m, TVal(state, x), TVal(state, v), TState(m, state, st)) == TResult(m, state, ErmSet(m, x, v, st))
    ensures ResultOk(m, state, ErmSet(m, x, v, st), |st.store|)
    ensures ErmSet(m, x, v, st).Val? ==> ErmSet(m, x, v, st).st.store == st.store
    ensures !ErmSet(m, x, v, st).Timeout?
  {
    hide StateOk, TState, TransStmt, FineStmt, EnvOk, SetProp;
    FailSim(m, state, st);
    SizesKept(m, state, st);
    SetPropSize(m, state, x, "value", v, st);
    if x.Ref? && x.addr < |st.heap| {
      HeapProps(m, state, st, x.addr);
      PropsImage(state, st.heap[x.addr], "value", x);
      SetPropSim(m, state, x, "value", v, st);
    }
  }

  // The runtime's functions on values of the script.
  lemma CallErmSim(m: Machine, state: seq<string>, f: string, args: seq<Value>, st: State)
    requires StateOk(m, state, st) && AllOk(m, state, args, |st.store|)
    ensures CallErm(m, f, TVals(state, args), TState(m, state, st)) == TResult(m, state, CallErm(m, f, args, st))
    ensures ResultOk(m, state, CallErm(m, f, args, st), |st.store|)
  {
    hide StateOk, TState, TVal, ValueOk, ErmGet, ErmSet, Argument, Direction, ViewOf;
    FailSim(m, state, st);
    ArgumentSim(m, state, args, 0, |st.store|);
    ArgumentSim(m, state, args, 1, |st.store|);
    DirectionSim(state, args);
    var x := Argument(m, args, 0);
    ErmGetSim(m, state, x, st);
    ErmSetSim(m, state, x, Argument(m, args, 1), st);
    match ErmGet(m, x, st) {
      case Val(before, _) =>
        ViewKept(state, before);
        match m.bump(ViewOf(before), Direction(args)) {
          case Some(p) =>
            PrimOk(m, state, p, |st.store|);
            ErmSetSim(m, state, x, Prim(p), st);
          case None =>
        }
      case _ =>
    }
  }

  lemma RewrittenStep(op: string, x: Expr, state: seq<string>, shadowed: seq<string>, pre: bool)
    ensures
      var e := if pre then Prefix(op, x) else Postfix(op, x);
      var x' := TransExpr(x, state, shadowed);
      TransExpr(e, state, shadowed) ==
        if x.Variable? && Reactive(x.name, state, shadowed) && Delta(op).Some?
        then ErmCall(if pre then "update_pre" else "update", x.name, x.loc, [Delta(op).value])
        else if pre then Prefix(op, x') else Postfix(op, x')
    ensures
      var x' := TransExpr(x, state, shadowed);
      if x.Variable? && !Reactive(x.name, state, shadowed) then x' == x else !x'.Variable?
    ensures
      var x' := TransExpr(x, state, shadowed);
      !x.Get? && !x.GetIndex? ==> !x'.Get? && !x'.GetIndex?
  {
    hide TransStmt;
  }

  // Neither the variable nor what the rewrite makes of it is a cell.
  lemma StepIsPlain(m: Machine, state: seq<string>, x: Expr, env: Env, st: State)
    requires EnvOk(m, state, env, |st.store|) && (x.Get? || x.GetIndex?) && !ReadsCell(x, state, env.shadowed)
    ensures !(x.Get? && x.prop == "value" && IsState(m, x.obj, env))
    ensures var x' := TransExpr(x, state, env.shadowed); !(x'.Get? && x'.prop == "value" && IsState(m, x'.obj, env))
  {
    hide EnvOk, TransStmt;
    if x.Get? && x.obj.Variable? {
      StateVariable(m, state, x.obj, env, st);
    } else if x.Get? {
      assert !TransExpr(x.obj, state, env.shadowed).Variable?;
    }
  }

  lemma TwoOperands(x: Expr, x': Expr)
    requires (x.Get? || x.GetIndex?) && SameForm(x, x')
    ensures |Operands(x)| == |Operands(x')| == if x.Get? then 1 else 2
  {
  }

  lemma StepPropSim(m: Machine, state: seq<string>, op: string, obj: Value, key: string, st: State, pre: bool)
    requires StateOk(m, state, st) && ValueOk(m, state, obj, |st.store|)
    ensures StepProp(m, op, TVal(state, obj), key, TState(m, state, st), pre)
      == TResult(m, state, StepProp(m, op, obj, key, st, pre))
    ensures ResultOk(m, state, StepProp(m, op, obj, key, st, pre), |st.store|)
  {
    hide StateOk, TState, TVal, ValueOk, GetProp, SetProp, ViewOf;
    FailSim(m, state, st);
    GetPropSim(m, state, obj, key, st);
    GetPropStays(m, obj, key, st);
    match GetProp(m, obj, key, st) {
      case Val(before, _) =>
        ViewKept(state, before);
        match m.bump(ViewOf(before), if op == "++" then 1 else -1) {
          case Some(p) =>
            PrimOk(m, state, p, |st.store|);
            SetPropSim(m, state, obj, key, Prim(p), st);
            SetPropSize(m, state, obj, key, Prim(p), st);
          case None =>
        }
      case _ =>
    }
  }

  // What a step makes of the values of its operands.
  ghost function Stepped(m: Machine, e: Expr, rs: Results): Result
    requires (e.Prefix? || e.Postfix?) && (e.inner.Get? || e.inner.GetIndex?)
    requires rs.Vals? ==> |rs.vs| == if e.inner.Get? then 1 else 2
  {
    match rs
    case Vals(vs, st) =>
      StepProp(m, e.op, vs[0], if e.inner.Get? then e.inner.prop else m.key(ViewOf(vs[1])), st, e.Prefix?)
    case Raised(v, st) => Raise(v, st)
    case TimedOut => Timeout
  }

  lemma StepIs(m: Machine, e: Expr, env: Env, st: State, fuel: nat)
    requires (e.Prefix? || e.Postfix?) && (e.inner.Get? || e.inner.GetIndex?)
    requires !(e.inner.Get? && e.inner.prop == "value" && IsState(m, e.inner.obj, env))
    requires |Operands(e.inner)| == if e.inner.Get? then 1 else 2
    ensures EvalExpr(m, e, env, st, fuel) == Stepped(m, e, EvalOperands(m, e.inner, 0, env, st, fuel))
  {
    hide EvalOperands, EvalOperator, StepProp, Operands, ViewOf, BumpVar;
  }

  lemma SimLeaf(m: Machine, state: seq<string>, e: Expr, env: Env, st: State, fuel: nat)
    requires Ready(m, state, env, st) && FineExpr(e, state, env.shadowed) && (e.Literal? || e.Function?)
    ensures ExprSim(m, state, e, env, st, fuel)
  {
    hide StateOk, EnvOk, TState, FineExpr, FineStmt, EvalOperands, EvalOperator, Apply, TransStmt, UsesExpr;
    FineInside(E(e), state, env.shadowed);
    if e.Function? {
      assert Children(E(e))[0] == S(e.body);
      assert Fine(S(e.body), state, env.shadowed + e.params);
    }
  }

  lemma LiteralEval(m: Machine, text: string, env: Env, t: State, fuel: nat)
    ensures EvalExpr(m, Literal(text), env, t, fuel) == Val(Prim(m.literal(text)), t)
  {
    hide EvalStmt, EvalOperator, Apply;
  }

  lemma StepSim(m: Machine, state: seq<string>, op: string, x: Expr, env: Env, st: State, pre: bool, fuel: nat)
    requires Ready(m, state, env, st) && (x.Variable? ==> x.name != "erm") && !x.Get? && !x.GetIndex?
    ensures
      var e := if pre then Prefix(op, x) else Postfix(op, x);
      ExprSim(m, state, e, env, st, fuel)
  {
    hide StateOk, TState, TVal, ValueOk, CallErm, EvalOperator, EvalOperands, Apply, TransExpr, TransStmt;
    StateSize(m, state, st);
    SizesKept(m, state, st);
    FailSim(m, state, st);
    RewrittenStep(op, x, state, env.shadowed, pre);
    if x.Variable? {
      LookupSim(m, state, x.name, env, st);
      BumpSim(m, state, op, x.name, x.loc, env, st, pre);
      if Reactive(x.name, state, env.shadowed) && Delta(op).Some? {
        var f := if pre then "update_pre" else "update";
        LiteralEval(m, Delta(op).value.text, env, TState(m, state, st), fuel);
        ErmTwo(m, f, x.name, x.loc, Delta(op).value, env, TState(m, state, st), Signal(env.vars[x.name]), fuel);
      }
    }
  }

  lemma NoVals(m: Machine, state: seq<string>, st: State)
    ensures TVals(state, []) == [] && AllOk(m, state, [], |st.store|)
  {
    hide TVal, FineStmt;
  }

  lemma {:induction false} SimOperands(m: Machine, state: seq<string>, e: Expr, e': Expr, i: nat, env: Env, st: State,
      fuel: nat)
    requires Ready(m, state, env, st) && i <= |Operands(e)| && OperandsRewritten(e, e', state, env.shadowed)
    requires forall j :: 0 <= j < |Operands(e)| ==> FineExpr(Operands(e)[j], state, env.shadowed)
    ensures EvalOperands(m, e', i, env, TState(m, state, st), fuel)
      == TResults(m, state, EvalOperands(m, e, i, env, st, fuel))
    ensures ResultsOk(m, state, EvalOperands(m, e, i, env, st, fuel), |st.store|)
    decreases fuel, 1, e, 0, |Operands(e)| - i
  {
    hide StateOk, EnvOk, TState, TVal, ValueOk, FineExpr, TransExpr, EvalExpr, Operands;
    if i < |Operands(e)| {
      hide EvalOperands;
      OperandSmaller(e, i);
      SimExpr(m, state, Operands(e)[i], env, st, fuel);
      assert Operands(e')[i] == TransExpr(Operands(e)[i], state, env.shadowed);
      var r := EvalExpr(m, Operands(e)[i], env, st, fuel);
      if r.Val? {
        EnvGrows(m, state, env, |st.store|, |r.st.store|);
        SimOperands(m, state, e, e', i + 1, env, r.st, fuel);
      }
      OperandsStep(m, state, e, e', i, env, st, fuel);
    } else {
      NoVals(m, state, st);
    }
  }

  lemma {:induction false} SimOperator(m: Machine, state: seq<string>, e: Expr, e': Expr, env: Env, st: State,
      fuel: nat)
    requires Ready(m, state, env, st) && FineExpr(e, state, env.shadowed) && IsOperator(e) && SameForm(e, e')
      && OperandsRewritten(e, e', state, env.shadowed)
    ensures EvalOperator(m, e', env, TState(m, state, st), fuel) == TResult(m, state, EvalOperator(m, e, env, st, fuel))
    ensures ResultOk(m, state, EvalOperator(m, e, env, st, fuel), |st.store|)
    decreases fuel, 1, e, 1, 0
  {
    hide StateOk, EnvOk, TState, TVal, ValueOk, FineExpr, TransExpr, EvalExpr, EvalOperands, Finish, SameForm, Operands;
    FineOperands(e, state, env.shadowed);
    SimOperands(m, state, e, e', 0, env, st, fuel);
    match EvalOperands(m, e, 0, env, st, fuel) {
      case Vals(vs, st1) =>
        FinishSim(m, state, e, e', vs, st1);
        ResultGrows(m, state, Finish(m, e, vs, st1), |st1.store|, |st.store|);
      case _ =>
    }
  }

  // A call of a function value.
  lemma {:induction false} SimEnter(m: Machine, state: seq<string>, f: Value, args: seq<Value>, st: State, fuel: nat)
    requires StateOk(m, state, st) && StepsOk(m) && ValueOk(m, state, f, |st.store|)
      && AllOk(m, state, args, |st.store|)
    ensures Enter(m, TVal(state, f), TVals(state, args), TState(m, state, st), fuel)
      == TResult(m, state, Enter(m, f, args, st, fuel))
    ensures ResultOk(m, state, Enter(m, f, args, st, fuel), |st.store|)
    decreases fuel, 0, 0
  {
    hide StateOk, EnvOk, TState, FineStmt, EvalStmt, BindAll, TransStmt;
    FailSim(m, state, st);
    if f.Closure? && fuel > 0 {
      BindAllSim(m, state, f.env, st, f.params, args);
      var (env', st') := BindAll(m, f.env, st, f.params, args);
      SimStmt(m, state, f.body, env', st', fuel - 1);
      ResultOfSim(m, state, EvalStmt(m, f.body, env', st', fuel - 1), Declares(f.body, env'.shadowed), |st'.store|);
      ResultGrows(m, state, ResultOf(m, EvalStmt(m, f.body, env', st', fuel - 1)), |st'.store|, |st.store|);
    }
  }

  // A call of a function value, or of the runtime's functions.
  lemma {:induction false} SimApply(m: Machine, state: seq<string>, f: Value, args: seq<Value>, st: State, fuel: nat)
    requires StateOk(m, state, st) && StepsOk(m) && ValueOk(m, state, f, |st.store|)
      && AllOk(m, state, args, |st.store|)
    ensures Apply(m, TVal(state, f), TVals(state, args), TState(m, state, st), fuel)
      == TResult(m, state, Apply(m, f, args, st, fuel))
    ensures ResultOk(m, state, Apply(m, f, args, st, fuel), |st.store|)
    decreases fuel, 0, 1
  {
    hide StateOk, EnvOk, TState, FineStmt, EvalStmt, TransStmt, CallErm, Enter, ValueOk;
    FailSim(m, state, st);
    KindKept(state, f);
    if f.ErmFn? {
      if args != [] && args[0].Closure? {
        KindKept(state, args[0]);
        assert TVals(state, []) == [];
        SimEnter(m, state, args[0], [], st, fuel);
        var v := Argument(m, args, 1);
        ArgumentSim(m, state, args, 1, |st.store|);
        assert TVals(state, [v]) == [TVal(state, v)];
        SimEnter(m, state, args[0], [v], st, fuel);
      } else {
        if args != [] {
          KindKept(state, args[0]);
        }
        CallErmSim(m, state, f.name, args, st);
      }
    } else {
      SimEnter(m, state, f, args, st, fuel);
    }
  }

  // x.value of a reactive x.
  lemma {:induction false} SimCell(m: Machine, state: seq<string>, e: Expr, env: Env, st: State, fuel: nat)
    requires Ready(m, state, env, st) && FineExpr(e, state, env.shadowed) && ReadsCell(e, state, env.shadowed)
    ensures ExprSim(m, state, e, env, st, fuel)
    decreases fuel, 1, e, 1
  {
    hide StateOk, TState, TVal, ValueOk, FineExpr, EvalOperator, EvalOperands, Apply, Store, Lookup, CallErm, ExprSim,
      EnvOk, TransStmt, TransExpr, EvalStmt, EvalExpr, UsesExpr;
    StateSize(m, state, st);
    ErmIsPlain(m, state, env, |st.store|);
    StateVariable(m, state, e.obj, env, st);
    var x := e.obj.name;
    if e.Get? {
      ReadSim(m, state, x, e.obj.loc, env, st, fuel);
      CellRead(m, state, e, env, st, fuel);
    } else {
      FineChild(e, e.val, state, env.shadowed);
      SimExpr(m, state, e.val, env, st, fuel);
      WriteSim(m, state, x, e.obj.loc, e.val, env, st, fuel);
      CellWritten(m, state, e, env, st, fuel);
    }
  }

  lemma {:induction false} SimCall(m: Machine, state: seq<string>, e: Expr, env: Env, st: State, fuel: nat)
    requires Ready(m, state, env, st) && FineExpr(e, state, env.shadowed) && e.Call?
    ensures ExprSim(m, state, e, env, st, fuel)
    decreases fuel, 1, e, 1
  {
    hide StateOk, EnvOk, TState, TVal, ValueOk, FineExpr, EvalOperands, Finish, TransExpr, Apply, EvalOperator;
    var e' := TransExpr(e, state, env.shadowed);
    OperatorRewritten(e, state, env.shadowed);
    FineOperands(e, state, env.shadowed);
    SimOperands(m, state, e, e', 0, env, st, fuel);
    match EvalOperands(m, e, 0, env, st, fuel) {
      case Vals(vs, st1) =>
        assert TVals(state, vs)[1..] == TVals(state, vs[1..]);
        SimApply(m, state, vs[0], vs[1..], st1, fuel);
        ResultGrows(m, state, Apply(m, vs[0], vs[1..], st1, fuel), |st1.store|, |st.store|);
      case _ =>
    }
  }

  lemma {:induction false} SimBranches(m: Machine, state: seq<string>, e: Expr, env: Env, st: State, fuel: nat)
    requires Ready(m, state, env, st) && FineExpr(e, state, env.shadowed) && (e.Logical? || e.Ternary?)
    ensures ExprSim(m, state, e, env, st, fuel)
    decreases fuel, 1, e, 1
  {
    hide StateOk, EnvOk, TState, TVal, ValueOk, FineExpr, EvalOperands, EvalOperator, Apply, ViewOf, TransStmt;
    var first := if e.Logical? then e.l else e.cond;
    FineChild(e, first, state, env.shadowed);
    SimExpr(m, state, first, env, st, fuel);
    match EvalExpr(m, first, env, st, fuel) {
      case Val(v, st1) =>
        ViewKept(state, v);
        EnvGrows(m, state, env, |st.store|, |st1.store|);
        if e.Logical? {
          FineChild(e, e.r, state, env.shadowed);
          SimExpr(m, state, e.r, env, st1, fuel);
          ResultGrows(m, state, EvalExpr(m, e.r, env, st1, fuel), |st1.store|, |st.store|);
        } else {
          var next := if m.truthy(ViewOf(v)) then e.thenE else e.elseE;
          FineChild(e, next, state, env.shadowed);
          SimExpr(m, state, next, env, st1, fuel);
          ResultGrows(m, state, EvalExpr(m, next, env, st1, fuel), |st1.store|, |st.store|);
        }
      case _ =>
    }
  }

  lemma {:induction false} SimExpr(m: Machine, state: seq<string>, e: Expr, env: Env, st: State, fuel: nat)
    requires Ready(m, state, env, st) && FineExpr(e, state, env.shadowed)
    ensures ExprSim(m, state, e, env, st, fuel)
    decreases fuel, 1, e, 2
  {
    hide StateOk, EnvOk, TState, TVal, ValueOk, FineExpr, EvalOperands, EvalOperator, Apply, Store, Lookup, CallErm,
      TransStmt, BumpVar, FineStmt, UsesExpr;
    FineInside(E(e), state, env.shadowed);
    if e.Literal? || e.Function? {
      SimLeaf(m, state, e, env, st, fuel);
    } else if e.Variable? {
      ReadSim(m, state, e.name, e.loc, env, st, fuel);
    } else if e.Assign? {
      FineChild(e, e.val, state, env.shadowed);
      SimExpr(m, state, e.val, env, st, fuel);
      WriteSim(m, state, e.target, e.loc, e.val, env, st, fuel);
    } else if e.Prefix? || e.Postfix? {
      if e.inner.Get? || e.inner.GetIndex? {
        FineChild(e, e.inner, state, env.shadowed);
        SimStep(m, state, e, env, st, fuel);
      } else {
        StepSim(m, state, e.op, e.inner, env, st, e.Prefix?, fuel);
      }
    } else if e.Logical? || e.Ternary? {
      SimBranches(m, state, e, env, st, fuel);
    } else if e.Call? {
      SimCall(m, state, e, env, st, fuel);
    } else if ReadsCell(e, state, env.shadowed) {
      SimCell(m, state, e, env, st, fuel);
    } else {
      SimPlain(m, state, e, env, st, fuel);
    }
  }

  // o.p++ and o[i]++: the operands are those of the rewrite.
  lemma {:induction false} SimStep(m: Machine, state: seq<string>, e: Expr, env: Env, st: State, fuel: nat)
    requires Ready(m, state, env, st) && (e.Prefix? || e.Postfix?) && (e.inner.Get? || e.inner.GetIndex?)
    requires FineExpr(e.inner, state, env.shadowed) && !ReadsCell(e.inner, state, env.shadowed)
    ensures ExprSim(m, state, e, env, st, fuel)
    decreases fuel, 1, e, 1
  {
    hide StateOk, EnvOk, TState, TVal, ValueOk, FineExpr, EvalOperands, EvalOperator, TransExpr, StepProp, Operands,
      ViewOf, BumpVar;
    var x := e.inner;
    var x' := TransExpr(x, state, env.shadowed);
    OperatorRewritten(x, state, env.shadowed);
    RewrittenStep(e.op, x, state, env.shadowed, e.Prefix?);
    FineOperands(x, state, env.shadowed);
    SimOperands(m, state, x, x', 0, env, st, fuel);
    StepIsPlain(m, state, x, env, st);
    TwoOperands(x, x');
    match EvalOperands(m, x, 0, env, st, fuel) {
      case Vals(vs, st1) =>
        ViewKept(state, vs[|vs| - 1]);
        var key := if x.Get? then x.prop else m.key(ViewOf(vs[1]));
        StepPropSim(m, state, e.op, vs[0], key, st1, e.Prefix?);
        ResultGrows(m, state, StepProp(m, e.op, vs[0], key, st1, e.Prefix?), |st1.store|, |st.store|);
      case _ =>
    }
    StepIs(m, e, env, st, fuel);
    StepIs(m, TransExpr(e, state, env.shadowed), env, TState(m, state, st), fuel);
  }

  lemma {:induction false} SimPlain(m: Machine, state: seq<string>, e: Expr, env: Env, st: State, fuel: nat)
    requires Ready(m, state, env, st) && FineExpr(e, state, env.shadowed) && IsOperator(e) && !e.Call?
      && !ReadsCell(e, state, env.shadowed)
    ensures ExprSim(m, state, e, env, st, fuel)
    decreases fuel, 1, e, 1, 1
  {
    hide StateOk, EnvOk, TState, TVal, ValueOk, FineExpr, EvalOperands, EvalOperator, EvalExpr, TransExpr;
    var e' := TransExpr(e, state, env.shadowed);
    OperatorRewritten(e, state, env.shadowed);
    SimOperator(m, state, e, e', env, st, fuel);
    if e.Get? || e.Set? {
      PlainAccess(m, state, e, env, st, fuel);
    } else {
      PlainOperator(m, e, env, st, fuel);
      PlainOperator(m, e', env, TState(m, state, st), fuel);
    }
  }

  // ---------------------------------------------------------------- the simulation: statements

  // Statements that evaluate one expression and then do something with its value.
  lemma {:induction false} SimOneExpr(m: Machine, state: seq<string>, s: Stmt, env: Env, st: State, fuel: nat)
    requires Ready(m, state, env, st) && FineStmt(s, state, env.shadowed)
    requires s.ExprStmt? || s.Print? || s.Throw? || s.Return? || s.VarDecl?
    ensures StmtSim(m, state, s, env, st, fuel)
    decreases fuel, 1, s, 3
  {
    hide StateOk, EnvOk, TState, TVal, ValueOk, FineStmt, FineExpr, EvalExpr, TransExpr, UsesExpr;
    NoNames(s, env.shadowed);
    if s.VarDecl? && s.init.Function? {
      SimDeclared(m, state, s, env, st, fuel);
      return;
    }
    if s.Return? && s.result.None? {
      PrimOk(m, state, m.nothing, |st.store|);
      return;
    }
    var e := if s.VarDecl? then s.init else if s.Return? then s.result.value else s.e;
    assert Children(S(s))[0] == E(e);
    FinePart(s, E(e), state, env.shadowed);
    FunctionsStay(e, state, env.shadowed);
    SimExpr(m, state, e, env, st, fuel);
    var r := EvalExpr(m, e, env, st, fuel);
    if r.Val? {
      EnvGrows(m, state, env, |st.store|, |r.st.store|);
      if s.Print? {
        OutSim(m, state, r.st, r.v);
      } else if s.VarDecl? {
        FineInside(S(s), state, env.shadowed);
        BindSim(m, state, env, r.st, s.name, r.v);
      }
    } else {
      EarlySim(m, state, r, Declares(s, env.shadowed), |st.store|);
    }
  }

  lemma {:induction false} SimWrapped(m: Machine, state: seq<string>, s: Stmt, env: Env, st: State, fuel: nat)
    requires Ready(m, state, env, st) && FineStmt(s, state, env.shadowed) && (s.Export? || s.Concurrent? || s.Sync?)
    ensures StmtSim(m, state, s, env, st, fuel)
    decreases fuel, 1, s, 3
  {
    hide StateOk, EnvOk, TState, TVal, ValueOk, FineStmt, FineExpr, EvalExpr, TransExpr, UsesExpr;
    NoNames(s, env.shadowed);
    var b := if s.Export? then s.inner else s.body;
    assert Children(S(s))[0] == S(b);
    FinePart(s, S(b), state, env.shadowed);
    SimStmt(m, state, b, env, st, fuel);
    var d := EvalStmt(m, b, env, st, fuel);
    NoNames(b, env.shadowed);
    LeaveSim(m, state, d, Declares(b, env.shadowed), env, |st.store|, |st.store|);
    FineInside(S(s), state, env.shadowed);
    if s.Export? && b.VarDecl? && d.Normal? {
      ExportedEnv(m, state, d.env, env.shadowed, b.name, |d.st.store|);
      assert TransStmt(b, state, env.shadowed).VarDecl?;
    } else if s.Export? {
      assert TransStmt(b, state, env.shadowed).VarDecl? == b.VarDecl?;
    }
  }

  lemma {:induction false} SimBlock(m: Machine, state: seq<string>, ss: seq<Stmt>, env: Env, st: State, fuel: nat)
    requires Ready(m, state, env, st) && forall i :: 0 <= i < |ss| ==>
      FineStmt(ss[i], state, Before(ss, i, env.shadowed))
    ensures EvalBlock(m, TransBlock(ss, state, env.shadowed), env, TState(m, state, st), fuel)
      == TDone(m, state, EvalBlock(m, ss, env, st, fuel))
    ensures BlockOk(m, state, EvalBlock(m, ss, env, st, fuel), ss, env.shadowed, |st.store|)
    decreases fuel, 1, ss, 0
  {
    hide StateOk, EnvOk, TState, TVal, ValueOk, FineStmt, EvalStmt, TransStmt;
    if ss != [] {
      var s := ss[0];
      assert Before(ss, 0, env.shadowed) == env.shadowed;
      SimStmt(m, state, s, env, st, fuel);
      var t := TransBlock(ss, state, env.shadowed);
      assert t[0] == TransStmt(s, state, env.shadowed)
        && t[1..] == TransBlock(ss[1..], state, Declares(s, env.shadowed));
      match EvalStmt(m, s, env, st, fuel) {
        case Normal(env', st') =>
          forall i | 0 <= i < |ss[1..]| ensures FineStmt(ss[1..][i], state, Before(ss[1..], i, env'.shadowed)) {
            BeforeRest(ss, i, env.shadowed);
          }
          SimBlock(m, state, ss[1..], env', st', fuel);
          var d := EvalBlock(m, ss[1..], env', st', fuel);
          DoneGrows(m, state, d, if d.Normal? then BlockNames(ss[1..], env'.shadowed) else env'.shadowed, |st'.store|,
            |st.store|);
        case _ =>
      }
    }
  }

  lemma {:induction false} SimBlockStmt(m: Machine, state: seq<string>, s: Stmt, env: Env, st: State, fuel: nat)
    requires Ready(m, state, env, st) && FineStmt(s, state, env.shadowed) && s.Block?
    ensures StmtSim(m, state, s, env, st, fuel)
    decreases fuel, 1, s, 3
  {
    hide StateOk, EnvOk, TState, TVal, ValueOk, FineStmt, EvalBlock, TransBlock, TransExpr, EvalExpr, UsesExpr;
    NoNames(s, env.shadowed);
    forall i | 0 <= i < |s.stmts| ensures FineStmt(s.stmts[i], state, Before(s.stmts, i, env.shadowed)) {
      assert Children(S(s))[i] == S(s.stmts[i]);
      FineAt(s, i, state, env.shadowed);
    }
    SimBlock(m, state, s.stmts, env, st, fuel);
    var d := EvalBlock(m, s.stmts, env, st, fuel);
    LeaveSim(m, state, d, if d.Normal? then BlockNames(s.stmts, env.shadowed) else env.shadowed, env, |st.store|,
      |st.store|);
  }

  lemma {:induction false} SimIf(m: Machine, state: seq<string>, s: Stmt, env: Env, st: State, fuel: nat)
    requires Ready(m, state, env, st) && FineStmt(s, state, env.shadowed) && s.If?
    ensures StmtSim(m, state, s, env, st, fuel)
    decreases fuel, 1, s, 3
  {
    hide StateOk, EnvOk, TState, TVal, ValueOk, FineStmt, FineExpr, EvalExpr, TransExpr, ViewOf, TransStmt, Declares,
      DoneOk;
    IfRewritten(s, state, env.shadowed);
    NoNames(s, env.shadowed);
    assert Children(S(s))[0] == E(s.cond) && Children(S(s))[1] == S(s.thenB);
    assert s.elseB.Some? ==> Children(S(s))[2] == S(s.elseB.value);
    FinePart(s, E(s.cond), state, env.shadowed);
    SimExpr(m, state, s.cond, env, st, fuel);
    var r := EvalExpr(m, s.cond, env, st, fuel);
    if r.Val? {
      ViewKept(state, r.v);
      EnvGrows(m, state, env, |st.store|, |r.st.store|);
      if m.truthy(ViewOf(r.v)) {
        FinePart(s, S(s.thenB), state, env.shadowed);
        SimStmt(m, state, s.thenB, env, r.st, fuel);
        LeaveSim(m, state, EvalStmt(m, s.thenB, env, r.st, fuel), Declares(s.thenB, env.shadowed), env, |r.st.store|,
          |st.store|);
      } else if s.elseB.Some? {
        FinePart(s, S(s.elseB.value), state, env.shadowed);
        SimStmt(m, state, s.elseB.value, env, r.st, fuel);
        LeaveSim(m, state, EvalStmt(m, s.elseB.value, env, r.st, fuel), Declares(s.elseB.value, env.shadowed), env,
          |r.st.store|, |st.store|);
      } else {
        NormalOk(m, state, env, r.st, |st.store|);
      }
    } else {
      EarlySim(m, state, r, env.shadowed, |st.store|);
    }
  }

  // The body of a loop, once.
  lemma {:induction false} SimWhile(m: Machine, state: seq<string>, s: Stmt, env: Env, st: State, fuel: nat)
    requires Ready(m, state, env, st) && FineStmt(s, state, env.shadowed) && s.While?
    ensures
      var s' := TransStmt(s, state, env.shadowed);
      EvalWhile(m, s', env, TState(m, state, st), fuel) == TDone(m, state, EvalWhile(m, s, env, st, fuel))
    ensures DoneOk(m, state, EvalWhile(m, s, env, st, fuel), env.shadowed, |st.store|)
    decreases fuel, 1, s, 2
  {
    hide StateOk, EnvOk, TState, TVal, ValueOk, FineStmt, FineExpr, EvalExpr, TransExpr, ViewOf, EvalStmt;
    if fuel > 0 {
      assert Children(S(s))[0] == E(s.cond) && Children(S(s))[1] == S(s.body);
      FinePart(s, E(s.cond), state, env.shadowed);
      FinePart(s, S(s.body), state, env.shadowed);
      SimExpr(m, state, s.cond, env, st, fuel);
      var r := EvalExpr(m, s.cond, env, st, fuel);
      if r.Val? {
        ViewKept(state, r.v);
        EnvGrows(m, state, env, |st.store|, |r.st.store|);
        if m.truthy(ViewOf(r.v)) {
          SimStmt(m, state, s.body, env, r.st, fuel);
          var d := EvalStmt(m, s.body, env, r.st, fuel);
          if d.Normal? || d.Continued? || d.Broke? {
            EnvGrows(m, state, env, |st.store|, |d.st.store|);
            if !d.Broke? {
              SimWhile(m, state, s, env, d.st, fuel - 1);
              DoneGrows(m, state, EvalWhile(m, s, env, d.st, fuel - 1), env.shadowed, |d.st.store|, |st.store|);
            }
          }
        }
      } else {
        EarlySim(m, state, r, env.shadowed, |st.store|);
      }
    }
  }

  lemma {:induction false} SimRange(m: Machine, state: seq<string>, s: Stmt, i: int, end: int, env: Env, st: State,
      fuel: nat)
    requires Ready(m, state, env, st) && FineStmt(s, state, env.shadowed) && s.For?
    ensures
      var s' := TransStmt(s, state, env.shadowed);
      EvalRange(m, s', i, end, env, TState(m, state, st), fuel)
        == TDone(m, state, EvalRange(m, s, i, end, env, st, fuel))
    ensures DoneOk(m, state, EvalRange(m, s, i, end, env, st, fuel), env.shadowed, |st.store|)
    decreases fuel, 1, s, 2
  {
    hide StateOk, EnvOk, TState, TVal, ValueOk, FineStmt, FineExpr, EvalExpr, TransExpr, EvalStmt, UsesExpr;
    if fuel > 0 && i < end {
      assert Children(S(s))[2] == S(s.body);
      FineAt(s, 2, state, env.shadowed);
      FineInside(S(s), state, env.shadowed);
      PrimOk(m, state, i, |st.store|);
      BindSim(m, state, env, st, s.v, Prim(i));
      var (env', st') := Bind(env, st, s.v, Prim(i));
      SimStmt(m, state, s.body, env', st', fuel);
      var d := EvalStmt(m, s.body, env', st', fuel);
      if d.Normal? || d.Continued? || d.Broke? {
        EnvGrows(m, state, env, |st.store|, |d.st.store|);
        if !d.Broke? {
          SimRange(m, state, s, i + 1, end, env, d.st, fuel - 1);
          DoneGrows(m, state, EvalRange(m, s, i + 1, end, env, d.st, fuel - 1), env.shadowed, |d.st.store|, |st.store|);
        }
      }
    }
  }

  lemma {:induction false} SimEach(m: Machine, state: seq<string>, s: Stmt, items: seq<Value>, env: Env, st: State,
      fuel: nat)
    requires Ready(m, state, env, st) && FineStmt(s, state, env.shadowed) && s.ForIn?
      && AllOk(m, state, items, |st.store|)
    ensures
      var s' := TransStmt(s, state, env.shadowed);
      EvalEach(m, s', TVals(state, items), env, TState(m, state, st), fuel)
        == TDone(m, state, EvalEach(m, s, items, env, st, fuel))
    ensures DoneOk(m, state, EvalEach(m, s, items, env, st, fuel), env.shadowed, |st.store|)
    decreases fuel, 1, s, 2, |items|
  {
    hide StateOk, EnvOk, TState, TVal, ValueOk, FineStmt, FineExpr, EvalExpr, TransExpr, EvalStmt, UsesExpr;
    if items != [] {
      assert Children(S(s))[1] == S(s.body);
      FineAt(s, 1, state, env.shadowed);
      FineInside(S(s), state, env.shadowed);
      BindSim(m, state, env, st, s.v, items[0]);
      var (env', st') := Bind(env, st, s.v, items[0]);
      SimStmt(m, state, s.body, env', st', fuel);
      var d := EvalStmt(m, s.body, env', st', fuel);
      assert TVals(state, items)[1..] == TVals(state, items[1..]);
      if d.Normal? || d.Continued? || d.Broke? {
        EnvGrows(m, state, env, |st.store|, |d.st.store|);
        if !d.Broke? {
          AllGrow(m, state, items[1..], |st.store|, |d.st.store|);
          SimEach(m, state, s, items[1..], env, d.st, fuel);
          DoneGrows(m, state, EvalEach(m, s, items[1..], env, d.st, fuel), env.shadowed, |d.st.store|, |st.store|);
        }
      }
    }
  }

  lemma {:induction false} SimFor(m: Machine, state: seq<string>, s: Stmt, env: Env, st: State, fuel: nat)
    requires Ready(m, state, env, st) && FineStmt(s, state, env.shadowed) && s.For?
    ensures StmtSim(m, state, s, env, st, fuel)
    decreases fuel, 1, s, 3
  {
    hide StateOk, EnvOk, TState, ValueOk, FineStmt, FineExpr, EvalExpr, TransExpr, EvalRange;
    NoNames(s, env.shadowed);
    assert Children(S(s))[0] == E(s.start) && Children(S(s))[1] == E(s.end);
    FineAt(s, 0, state, env.shadowed);
    FineAt(s, 1, state, env.shadowed);
    SimExpr(m, state, s.start, env, st, fuel);
    var r := EvalExpr(m, s.start, env, st, fuel);
    if r.Val? {
      EnvGrows(m, state, env, |st.store|, |r.st.store|);
      SimExpr(m, state, s.end, env, r.st, fuel);
      var q := EvalExpr(m, s.end, env, r.st, fuel);
      if q.Val? {
        EnvGrows(m, state, env, |st.store|, |q.st.store|);
        PrimOk(m, state, m.error, |q.st.store|);
        if r.v.Prim? && q.v.Prim? {
          SimRange(m, state, s, r.v.p, q.v.p, env, q.st, fuel);
          DoneGrows(m, state, EvalRange(m, s, r.v.p, q.v.p, env, q.st, fuel), env.shadowed, |q.st.store|, |st.store|);
        }
      } else {
        EarlySim(m, state, q, env.shadowed, |r.st.store|);
        DoneGrows(m, state, Early(q), env.shadowed, |r.st.store|, |st.store|);
      }
    } else {
      EarlySim(m, state, r, env.shadowed, |st.store|);
    }
  }

  lemma {:induction false} SimForIn(m: Machine, state: seq<string>, s: Stmt, env: Env, st: State, fuel: nat)
    requires Ready(m, state, env, st) && FineStmt(s, state, env.shadowed) && s.ForIn?
    ensures StmtSim(m, state, s, env, st, fuel)
    decreases fuel, 1, s, 3
  {
    hide StateOk, EnvOk, TState, ValueOk, FineStmt, FineExpr, EvalExpr, TransExpr, EvalEach, Items, TProps;
    NoNames(s, env.shadowed);
    assert Children(S(s))[0] == E(s.iter);
    FineAt(s, 0, state, env.shadowed);
    SimExpr(m, state, s.iter, env, st, fuel);
    var r := EvalExpr(m, s.iter, env, st, fuel);
    if r.Val? {
      EnvGrows(m, state, env, |st.store|, |r.st.store|);
      PrimOk(m, state, m.error, |r.st.store|);
      SizesKept(m, state, r.st);
      if r.v.Ref? && r.v.addr < |r.st.heap| {
        HeapProps(m, state, r.st, r.v.addr);
        var items := Items(m, r.st.heap[r.v.addr], 0);
        ItemsSim(m, state, r.st.heap[r.v.addr], 0, |r.st.store|);
        SimEach(m, state, s, items, env, r.st, fuel);
        DoneGrows(m, state, EvalEach(m, s, items, env, r.st, fuel), env.shadowed, |r.st.store|, |st.store|);
      }
    } else {
      EarlySim(m, state, r, env.shadowed, |st.store|);
    }
  }

  lemma {:induction false} SimTry(m: Machine, state: seq<string>, s: Stmt, env: Env, st: State, fuel: nat)
    requires Ready(m, state, env, st) && FineStmt(s, state, env.shadowed) && s.Try?
    ensures StmtSim(m, state, s, env, st, fuel)
    decreases fuel, 1, s, 3
  {
    hide StateOk, EnvOk, TState, TVal, ValueOk, FineStmt, EvalBlock, TransStmt, DoneOk, Declares, Apply, EvalStmt;
    NoNames(s, env.shadowed);
    TryRewritten(s, state, env.shadowed);
    TryIs(m, s, env, st, fuel);
    TryIs(m, TransStmt(s, state, env.shadowed), env, TState(m, state, st), fuel);
    var tried, caught := SimCaught(m, state, s, env, st, fuel);
    if s.finallyB.Some? && !caught.Exhausted? {
      var f := s.finallyB.value;
      DoneState(m, state, caught, env.shadowed, |st.store|);
      EnvGrows(m, state, env, |st.store|, |caught.st.store|);
      assert Children(S(s))[if s.catchB.Some? then 2 else 1] == S(f);
      FineAt(s, if s.catchB.Some? then 2 else 1, state, env.shadowed);
      SimStmt(m, state, f, env, caught.st, fuel);
      var last := EvalStmt(m, f, env, caught.st, fuel);
      LeaveSim(m, state, last, Declares(f, env.shadowed), env, |caught.st.store|, |st.store|);
      if last.Normal? {
        DoneState(m, state, last, Declares(f, env.shadowed), |caught.st.store|);
      }
      ResumeSim(m, state, caught, Leave(last, env), env, |st.store|, |caught.st.store|);
    }
  }

  // What a try statement has come to before its finally block.
  lemma {:induction false} SimCaught(m: Machine, state: seq<string>, s: Stmt, env: Env, st: State, fuel: nat)
    returns (tried: Done, caught: Done)
    requires Ready(m, state, env, st) && FineStmt(s, state, env.shadowed) && s.Try?
    ensures tried == Leave(EvalStmt(m, s.tryB, env, st, fuel), env)
    ensures caught == Caught(m, s.catchB, tried, env, fuel)
    ensures
      var t' := Leave(EvalStmt(m, TransStmt(s.tryB, state, env.shadowed), env, TState(m, state, st), fuel), env);
      && t' == TDone(m, state, tried)
      && Caught(m, TransCatch(s.catchB, state, env.shadowed), t', env, fuel) == TDone(m, state, caught)
    ensures DoneOk(m, state, caught, env.shadowed, |st.store|)
    decreases fuel, 1, s, 2
  {
    hide StateOk, EnvOk, TState, TVal, ValueOk, FineStmt, EvalBlock, TransStmt, EvalStmt, Declares, UsesExpr;
    assert Children(S(s))[0] == S(s.tryB);
    FineAt(s, 0, state, env.shadowed);
    SimStmt(m, state, s.tryB, env, st, fuel);
    var d := EvalStmt(m, s.tryB, env, st, fuel);
    LeaveSim(m, state, d, Declares(s.tryB, env.shadowed), env, |st.store|, |st.store|);
    tried := Leave(d, env);
    caught := Caught(m, s.catchB, tried, env, fuel);
    if tried.Threw? && s.catchB.Some? {
      var x, b := s.catchB.value.0, s.catchB.value.1;
      assert s decreases to b;
      assert Children(S(s))[1] == S(b);
      FineAt(s, 1, state, env.shadowed);
      FineInside(S(s), state, env.shadowed);
      EnvGrows(m, state, env, |st.store|, |tried.st.store|);
      BindSim(m, state, env, tried.st, x, tried.e);
      var (env', st') := Bind(env, tried.st, x, tried.e);
      SimStmt(m, state, b, env', st', fuel);
      LeaveSim(m, state, EvalStmt(m, b, env', st', fuel), Declares(b, env'.shadowed), env, |st'.store|, |st.store|);
    }
  }

  lemma {:induction false} SimMatch(m: Machine, state: seq<string>, v: Value, es: seq<Expr>, env: Env, st: State,
      fuel: nat)
    requires Ready(m, state, env, st) && forall i :: 0 <= i < |es| ==> FineExpr(es[i], state, env.shadowed)
    ensures EvalMatch(m, TVal(state, v), TransExprs(es, state, env.shadowed), env, TState(m, state, st), fuel)
      == TResult(m, state, EvalMatch(m, v, es, env, st, fuel))
    ensures ResultOk(m, state, EvalMatch(m, v, es, env, st, fuel), |st.store|)
    ensures EvalMatch(m, v, es, env, st, fuel).Val? ==> EvalMatch(m, v, es, env, st, fuel).v.Prim?
    decreases fuel, 1, es, 0
  {
    hide StateOk, EnvOk, TState, TVal, ValueOk, FineExpr, EvalExpr, TransExpr, ViewOf, TransStmt;
    PrimOk(m, state, 0, |st.store|);
    if es != [] {
      var t := TransExprs(es, state, env.shadowed);
      assert t[1..] == TransExprs(es[1..], state, env.shadowed);
      SimExpr(m, state, es[0], env, st, fuel);
      var r := EvalExpr(m, es[0], env, st, fuel);
      if r.Val? {
        EnvGrows(m, state, env, |st.store|, |r.st.store|);
        ViewKept(state, v);
        ViewKept(state, r.v);
        PrimOk(m, state, 1, |r.st.store|);
        SimMatch(m, state, v, es[1..], env, r.st, fuel);
        ResultGrows(m, state, EvalMatch(m, v, es[1..], env, r.st, fuel), |r.st.store|, |st.store|);
      }
    }
  }

  lemma {:induction false} SimCases(m: Machine, state: seq<string>, v: Value, s: Stmt, i: nat, env: Env, st: State,
      fuel: nat)
    returns (shadowed: seq<string>)
    requires Ready(m, state, env, st) && FineStmt(s, state, env.shadowed) && s.Switch? && i <= |s.cases|
    ensures
      var s' := TransStmt(s, state, env.shadowed);
      s'.Switch? && |s'.cases| == |s.cases| &&
      EvalCases(m, TVal(state, v), s', i, env, TState(m, state, st), fuel)
        == TDone(m, state, EvalCases(m, v, s, i, env, st, fuel))
    ensures DoneOk(m, state, EvalCases(m, v, s, i, env, st, fuel), shadowed, |st.store|)
    decreases fuel, 1, s, 2, |s.cases| - i
  {
    hide StateOk, EnvOk, TState, TVal, ValueOk, FineExpr, FineStmt, EvalExpr, TransExpr, TransStmt, EvalStmt, EvalMatch,
      Declares;
    SwitchRewritten(s, state, env.shadowed);
    shadowed := env.shadowed;
    if i == |s.cases| {
      if s.defaultB.Some? {
        assert S(s.defaultB.value) in Children(S(s));
        FinePart(s, S(s.defaultB.value), state, env.shadowed);
        SimStmt(m, state, s.defaultB.value, env, st, fuel);
        shadowed := Declares(s.defaultB.value, env.shadowed);
      }
    } else {
      var c := s.cases[i];
      assert s decreases to c;
      CaseFine(s, i, state, env.shadowed);
      SimMatch(m, state, v, c.values, env, st, fuel);
      var r := EvalMatch(m, v, c.values, env, st, fuel);
      if r.Val? {
        EnvGrows(m, state, env, |st.store|, |r.st.store|);
        PrimOk(m, state, r.v.p, |r.st.store|);
        if r.v == Prim(1) {
          SimStmt(m, state, c.body, env, r.st, fuel);
          shadowed := Declares(c.body, env.shadowed);
          DoneGrows(m, state, EvalStmt(m, c.body, env, r.st, fuel), shadowed, |r.st.store|, |st.store|);
        } else {
          shadowed := SimCases(m, state, v, s, i + 1, env, r.st, fuel);
          DoneGrows(m, state, EvalCases(m, v, s, i + 1, env, r.st, fuel), shadowed, |r.st.store|, |st.store|);
        }
      } else {
        EarlySim(m, state, r, shadowed, |st.store|);
      }
    }
  }

  lemma {:induction false} SimSwitch(m: Machine, state: seq<string>, s: Stmt, env: Env, st: State, fuel: nat)
    requires Ready(m, state, env, st) && FineStmt(s, state, env.shadowed) && s.Switch?
    ensures StmtSim(m, state, s, env, st, fuel)
    decreases fuel, 1, s, 3
  {
    hide StateOk, EnvOk, TState, TVal, ValueOk, FineStmt, FineExpr, EvalExpr, TransExpr, TransStmt, EvalCases;
    NoNames(s, env.shadowed);
    SwitchRewritten(s, state, env.shadowed);
    assert Children(S(s))[0] == E(s.e);
    FinePart(s, E(s.e), state, env.shadowed);
    SimExpr(m, state, s.e, env, st, fuel);
    var r := EvalExpr(m, s.e, env, st, fuel);
    if r.Val? {
      EnvGrows(m, state, env, |st.store|, |r.st.store|);
      var shadowed := SimCases(m, state, r.v, s, 0, env, r.st, fuel);
      LeaveSim(m, state, EvalCases(m, r.v, s, 0, env, r.st, fuel), shadowed, env, |r.st.store|, |st.store|);
    } else {
      EarlySim(m, state, r, env.shadowed, |st.store|);
    }
  }

  /** Evaluating the rewrite of a statement in the image of a state gives the image of what the
      statement gives, and a good state. */
  lemma {:induction false} SimStmt(m: Machine, state: seq<string>, s: Stmt, env: Env, st: State, fuel: nat)
    requires Ready(m, state, env, st) && FineStmt(s, state, env.shadowed)
    ensures StmtSim(m, state, s, env, st, fuel)
    decreases fuel, 1, s, 4
  {
    hide StateOk, EnvOk, TState, TVal, ValueOk, FineStmt, StmtSim, TransStmt, EvalStmt, EvalExpr;
    match s {
      case ExprStmt(_) => SimOneExpr(m, state, s, env, st, fuel);
      case Print(_) => SimOneExpr(m, state, s, env, st, fuel);
      case Throw(_) => SimOneExpr(m, state, s, env, st, fuel);
      case Return(_, _) => SimOneExpr(m, state, s, env, st, fuel);
      case VarDecl(_, _, _, _) => SimOneExpr(m, state, s, env, st, fuel);
      case Export(_) => SimWrapped(m, state, s, env, st, fuel);
      case Concurrent(_) => SimWrapped(m, state, s, env, st, fuel);
      case Sync(_) => SimWrapped(m, state, s, env, st, fuel);
      case Block(_) => SimBlockStmt(m, state, s, env, st, fuel);
      case If(_, _, _) => SimIf(m, state, s, env, st, fuel);
      case While(_, _) =>
        SimWhile(m, state, s, env, st, fuel);
        StateSize(m, state, st);
        WhileIs(m, state, s, env, st, fuel);
      case For(_, _, _, _) => SimFor(m, state, s, env, st, fuel);
      case ForIn(_, _, _) => SimForIn(m, state, s, env, st, fuel);
      case Try(_, _, _) => SimTry(m, state, s, env, st, fuel);
      case Switch(_, _, _) => SimSwitch(m, state, s, env, st, fuel);
      case _ => SimInert(m, state, s, env, st, fuel);
    }
  }

  // ---------------------------------------------------------------- whole scripts

  // transform_script_reactivity: every statement of the script with nothing shadowed.
  function TransScript(ss: seq<Stmt>, state: seq<string>): (r: seq<Stmt>)
    ensures |r| == |ss| && forall i :: 0 <= i < |ss| ==> r[i] == TransStmt(ss[i], state, [])
  {
    seq(|ss|, i requires 0 <= i < |ss| => TransStmt(ss[i], state, []))
  }

  // No statement of the script itself declares a state variable again.
  ghost predicate ScriptFine(ss: seq<Stmt>, state: seq<string>)
  {
    forall i :: 0 <= i < |ss| ==> FineStmt(ss[i], state, []) && (ss[i].VarDecl? ==> ss[i].name !in state)
  }

  /** A script and its rewrite: the rewrite, started in the image of a good state, ends as the script
      does, in the image of the state the script ends in.  So what is printed, returned and thrown
      agrees, and every cell holds the image of what its state variable holds. */
  lemma {:induction false} RewritePreserves(m: Machine, state: seq<string>, ss: seq<Stmt>, env: Env, st: State,
      fuel: nat)
    requires Ready(m, state, env, st) && env.shadowed == [] && ScriptFine(ss, state)
    ensures EvalScript(m, TransScript(ss, state), env, TState(m, state, st), fuel)
      == TDone(m, state, EvalScript(m, ss, env, st, fuel))
    ensures var d := EvalScript(m, ss, env, st, fuel); !d.Exhausted? ==> StateOk(m, state, d.st)
    decreases |ss|
  {
    hide StateOk, EnvOk, TState, TVal, ValueOk, FineStmt, EvalStmt, TransStmt, Declares;
    if ss != [] {
      var s := ss[0];
      SimStmt(m, state, s, env, st, fuel);
      NoNames(s, []);
      var d := EvalStmt(m, s, env, st, fuel);
      if !d.Exhausted? {
        DoneState(m, state, d, Declares(s, []), |st.store|);
      }
      if d.Normal? {
        assert TransScript(ss, state)[1..] == TransScript(ss[1..], state);
        if s.VarDecl? {
          ExportedEnv(m, state, d.env, [], s.name, |d.st.store|);
        } else {
          assert d.env.(shadowed := []) == d.env;
        }
        RewritePreserves(m, state, ss[1..], d.env.(shadowed := []), d.st, fuel);
      }
    }
  }

  // The same program text prints the same primitive values.
  lemma PrintedAgree(m: Machine, state: seq<string>, st: State, i: nat)
    requires i < |st.out| && st.out[i].Prim?
    ensures |TState(m, state, st).out| == |st.out| && TState(m, state, st).out[i] == st.out[i]
  {
    hide TransStmt;
  }

  // ---------------------------------------------------------------- where scripts start

  function Places(state: seq<string>): map<string, nat>
  {
    if state == [] then map[] else Places(state[..|state| - 1])[state[|state| - 1] := |state| - 1]
  }

  function StartEnv(state: seq<string>): Env
  {
    Env(Places(state)["erm" := |state|], [])
  }

  function StartState(vals: seq<int>): State
  {
    State(seq(|vals|, i requires 0 <= i < |vals| => Prim(vals[i])) + [Erm], [], [], [])
  }

  lemma {:induction false} PlacesInside(state: seq<string>, x: string)
    ensures x in Places(state) <==> x in state
    ensures x in state ==> Places(state)[x] < |state|
  {
    if state != [] {
      PlacesInside(state[..|state| - 1], x);
      assert state == state[..|state| - 1] + [state[|state| - 1]];
    }
  }

  // Any state variables with any first values make a good start.
  lemma StartReady(m: Machine, state: seq<string>, vals: seq<int>)
    requires m.k == |state| == |vals| && "erm" !in state && StepsOk(m)
    ensures Ready(m, state, StartEnv(state), StartState(vals))
  {
    hide TVal, FineStmt;
    var env, n := StartEnv(state), |vals| + 1;
    forall x ensures x in Places(state) <==> x in state {
      PlacesInside(state, x);
    }
    forall x | x in env.vars ensures PlaceOk(m, state, env, x, n) {
      PlacesInside(state, x);
    }
  }

  // ---------------------------------------------------------------- where it fails

  // A block that exports a declaration of a state variable's name, assigns to it and prints it.
  function ExportedShadow(x: string): seq<Stmt>
  {
    [Export(VarDecl(x, false, Literal("5"), NOWHERE)), ExprStmt(Assign(x, Literal("7"), NOWHERE)),
      Print(Variable(x, NOWHERE))]
  }

  function RewrittenShadow(x: string): seq<Stmt>
  {
    [Export(VarDecl(x, false, Literal("5"), NOWHERE)), ExprStmt(ErmCall("set", x, NOWHERE, [Literal("7")])),
      Print(ErmCall("get", x, NOWHERE, []))]
  }

  lemma ShadowParts(x: string)
    ensures TransStmt(ExportedShadow(x)[0], [x], []) == RewrittenShadow(x)[0]
    ensures TransStmt(ExportedShadow(x)[1], [x], []) == RewrittenShadow(x)[1]
    ensures TransStmt(ExportedShadow(x)[2], [x], []) == RewrittenShadow(x)[2]
  {
    var decl, five, seven := VarDecl(x, false, Literal("5"), NOWHERE), Literal("5"), Literal("7");
    assert Reactive(x, [x], []);
    assert TransExpr(five, [x], []) == five && TransExpr(seven, [x], []) == seven;
    assert TransStmt(decl, [x], []) == decl;
  }

  lemma ShadowRewritten(x: string)
    ensures TransBlock(ExportedShadow(x), [x], []) == RewrittenShadow(x)
  {
    ShadowParts(x);
    hide TransStmt;
    var ss := ExportedShadow(x);
    assert Declared(ss[0]) == [] && [] + Declared(ss[0]) == [];
    assert TransBlock(ss[1..][1..][1..], [x], []) == [];
    assert TransBlock(ss[1..][1..], [x], []) == [RewrittenShadow(x)[2]];
    assert TransBlock(ss[1..], [x], []) == [RewrittenShadow(x)[1], RewrittenShadow(x)[2]];
  }

  lemma DeclStep(m: Machine, x: string, env: Env, st: State, fuel: nat)
    ensures EvalStmt(m, ExportedShadow(x)[0], env, st, fuel)
      == Normal(Env(env.vars[x := |st.store|], env.shadowed), st.(store := st.store + [Prim(m.literal("5"))]))
  {
    hide EvalExpr;
    var decl := VarDecl(x, false, Literal("5"), NOWHERE);
    LiteralEval(m, "5", env, st, fuel);
    assert EvalStmt(m, decl, env, st, fuel)
      == Normal(Env(env.vars[x := |st.store|], env.shadowed + [x]), st.(store := st.store + [Prim(m.literal("5"))]));
  }

  lemma ThreeSteps(m: Machine, ss: seq<Stmt>, env: Env, st: State, fuel: nat, env1: Env, st1: State, st2: State,
      st3: State)
    requires |ss| == 3
    requires EvalStmt(m, ss[0], env, st, fuel) == Normal(env1, st1)
    requires EvalStmt(m, ss[1], env1, st1, fuel) == Normal(env1, st2)
    requires EvalStmt(m, ss[2], env1, st2, fuel) == Normal(env1, st3)
    ensures EvalBlock(m, ss, env, st, fuel) == Normal(env1, st3)
  {
    hide EvalStmt;
    assert EvalBlock(m, ss[1..][1..][1..], env1, st3, fuel) == Normal(env1, st3);
    assert EvalBlock(m, ss[1..][1..], env1, st2, fuel) == Normal(env1, st3);
    assert EvalBlock(m, ss[1..], env1, st1, fuel) == Normal(env1, st3);
  }

  // After the declaration: the assignment and the print, and their rewrites.
  function Declared5(x: string): Env { Env(StartEnv([x]).vars[x := 2], []) }

  function AfterDecl(m: Machine, st: State): State { st.(store := st.store + [Prim(m.literal("5"))]) }

  lemma PlainRun(m: Machine, x: string, p: int, fuel: nat)
    requires m.k == 1 && x != "erm"
    ensures
      var env, st1 := Declared5(x), AfterDecl(m, StartState([p]));
      var seven := Prim(m.literal("7"));
      var st2 := st1.(store := st1.store[2 := seven]);
      && EvalStmt(m, ExportedShadow(x)[1], env, st1, fuel) == Normal(env, st2)
      && EvalStmt(m, ExportedShadow(x)[2], env, st2, fuel) == Normal(env, st2.(out := [seven]))
  {
    hide CallErm, EvalOperands, EvalOperator;
    var env, st1 := Declared5(x), AfterDecl(m, StartState([p]));
    var seven := Prim(m.literal("7"));
    LiteralEval(m, "7", env, st1, fuel);
    var st2 := st1.(store := st1.store[2 := seven]);
    assert EvalExpr(m, Assign(x, Literal("7"), NOWHERE), env, st1, fuel) == Val(seven, st2);
    assert EvalExpr(m, Variable(x, NOWHERE), env, st2, fuel) == Val(seven, st2);
  }

  lemma NoSignal(m: Machine, v: Value, w: Value, t: State)
    requires v.Prim?
    ensures CallErm(m, "get", [v], t) == Val(v, t) && CallErm(m, "set", [v, w], t) == Val(w, t)
  {
  }

  lemma RewrittenRun(m: Machine, x: string, p: int, fuel: nat)
    requires m.k == 1 && x != "erm"
    ensures
      var env, t1 := Declared5(x), AfterDecl(m, TState(m, [x], StartState([p])));
      && EvalStmt(m, RewrittenShadow(x)[1], env, t1, fuel) == Normal(env, t1)
      && EvalStmt(m, RewrittenShadow(x)[2], env, t1, fuel) == Normal(env, t1.(out := [Prim(m.literal("5"))]))
  {
    hide CallErm, EvalOperands, EvalOperator, TransStmt;
    var env, t1 := Declared5(x), AfterDecl(m, TState(m, [x], StartState([p])));
    var five, seven := Prim(m.literal("5")), Prim(m.literal("7"));
    assert |t1.store| == 3 && t1.store[1] == Erm;
    LiteralEval(m, "7", env, t1, fuel);
    ErmTwo(m, "set", x, NOWHERE, Literal("7"), env, t1, five, fuel);
    ErmOne(m, "get", x, NOWHERE, env, t1, five, fuel);
    NoSignal(m, five, seven, t1);
  }

  /** An exported declaration in a block is not taken into the list of shadowing names: the block
      prints the value assigned last, its rewrite the declared one. */
  lemma ExportForgotten(m: Machine, x: string, p: int, fuel: nat)
    requires m.k == 1 && x != "erm"
    ensures
      var env, st := StartEnv([x]), StartState([p]);
      var d := EvalBlock(m, ExportedShadow(x), env, st, fuel);
      var d' := EvalBlock(m, TransBlock(ExportedShadow(x), [x], []), env, TState(m, [x], st), fuel);
      d.Normal? && d.st.out == [Prim(m.literal("7"))] && d'.Normal? && d'.st.out == [Prim(m.literal("5"))]
  {
    hide TransBlock, EvalBlock, EvalStmt, EvalExpr, TransStmt;
    var env, st := StartEnv([x]), StartState([p]);
    var t := TState(m, [x], st);
    var seven := Prim(m.literal("7"));
    ShadowRewritten(x);
    DeclStep(m, x, env, st, fuel);
    DeclStep(m, x, env, t, fuel);
    PlainRun(m, x, p, fuel);
    RewrittenRun(m, x, p, fuel);
    var env1, st1, t1 := Declared5(x), AfterDecl(m, st), AfterDecl(m, t);
    var st2 := st1.(store := st1.store[2 := seven]);
    assert |st.store| == 2 && |t.store| == 2;
    ThreeSteps(m, ExportedShadow(x), env, st, fuel, env1, st1, st2, st2.(out := [seven]));
    ThreeSteps(m, RewrittenShadow(x), env, t, fuel, env1, t1, t1, t1.(out := [Prim(m.literal("5"))]));
  }

  // A block that declares a function of a state variable's name, which returns itself, and calls it.
  function SelfReturning(x: string): seq<Stmt>
  {
    [VarDecl(x, true, Function([], Return(Some(Variable(x, NOWHERE)), NOWHERE), false, false), NOWHERE),
     ExprStmt(Call(Variable(x, NOWHERE), []))]
  }

  function SelfCalling(x: string): seq<Stmt>
  {
    [VarDecl(x, true, Function([], Return(Some(ErmCall("get", x, NOWHERE, [])), NOWHERE), false, false), NOWHERE),
     ExprStmt(Call(Variable(x, NOWHERE), []))]
  }

  lemma SelfRewritten(x: string)
    ensures TransBlock(SelfReturning(x), [x], []) == SelfCalling(x)
  {
    var ss := SelfReturning(x);
    var body := Return(Some(Variable(x, NOWHERE)), NOWHERE);
    var call := Call(Variable(x, NOWHERE), []);
    var none: seq<string> := [];
    assert Reactive(x, [x], none) && !Reactive(x, [x], [x]) && none + none == none && none + [x] == [x];
    assert TransExpr(Variable(x, NOWHERE), [x], []) == ErmCall("get", x, NOWHERE, []);
    assert TransStmt(body, [x], []) == SelfCalling(x)[0].init.body;
    assert TransExpr(ss[0].init, [x], []) == SelfCalling(x)[0].init;
    assert TransStmt(ss[0], [x], []) == SelfCalling(x)[0];
    assert TransExprs([], [x], [x]) == [];
    assert TransExpr(call, [x], [x]) == call;
    assert TransStmt(ss[1], [x], [x]) == ss[1];
    hide TransStmt;
    assert Declared(ss[0]) == [x];
    assert TransBlock(ss[1..][1..], [x], [x] + Declared(ss[1])) == [];
    assert TransBlock(ss[1..], [x], [x]) == [ss[1]];
  }

  // erm.get calls the function that it is given, which asks erm.get for itself again.
  lemma {:induction false} CallsForEver(m: Machine, x: string, c: Value, t: State, fuel: nat)
    requires c.Closure? && c.params == [] && c.body == Return(Some(ErmCall("get", x, NOWHERE, [])), NOWHERE)
    requires "erm" in c.env.vars && c.env.vars["erm"] == m.k < |t.store| && t.store[m.k] == Erm
    requires Lookup(m, x, c.env, t) == Val(c, t)
    ensures Enter(m, c, [], t, fuel) == Timeout
    decreases fuel
  {
    hide EvalExpr;
    if fuel > 0 {
      CallsForEver(m, x, c, t, fuel - 1);
      ErmApplied(m, "get", x, NOWHERE, c.env, t, c, fuel - 1);
      hide EvalExpr, Lookup;
      assert Apply(m, ErmFn("get"), [c], t, fuel - 1) == Enter(m, c, [], t, fuel - 1);
      assert BindAll(m, c.env, t, c.params, []) == (c.env, t);
    }
  }

  lemma TwoSteps(m: Machine, ss: seq<Stmt>, env: Env, st: State, fuel: nat, env1: Env, st1: State)
    requires |ss| == 2 && EvalStmt(m, ss[0], env, st, fuel) == Normal(env1, st1)
    ensures var d := EvalStmt(m, ss[1], env1, st1, fuel); !d.Normal? ==> EvalBlock(m, ss, env, st, fuel) == d
    ensures var d := EvalStmt(m, ss[1], env1, st1, fuel); d.Normal? ==> EvalBlock(m, ss, env, st, fuel) == d
  {
    hide EvalStmt;
    var d := EvalStmt(m, ss[1], env1, st1, fuel);
    if d.Normal? {
      assert EvalBlock(m, ss[1..][1..], d.env, d.st, fuel) == d;
    }
    assert EvalBlock(m, ss[1..], env1, st1, fuel) == d;
  }

  lemma CallNothing(m: Machine, x: string, c: Value, env: Env, t: State, fuel: nat)
    requires Lookup(m, x, env, t) == Val(c, t)
    ensures EvalExpr(m, Call(Variable(x, NOWHERE), []), env, t, fuel) == Apply(m, c, [], t, fuel)
  {
    hide Apply, Lookup, EvalStmt, EvalOperator;
    var e := Call(Variable(x, NOWHERE), []);
    assert Operands(e) == [Variable(x, NOWHERE)];
    assert EvalExpr(m, Variable(x, NOWHERE), env, t, fuel) == Val(c, t);
    assert EvalOperands(m, e, 1, env, t, fuel) == Vals([], t);
    assert EvalOperands(m, e, 0, env, t, fuel) == Vals([c] + [], t);
    assert ([c] + [])[0] == c && ([c] + [])[1..] == [];
  }

  lemma SelfDeclared(m: Machine, x: string, body: Stmt, env: Env, st: State, fuel: nat)
    ensures
      var env1 := Env(env.vars[x := |st.store|], env.shadowed + [x]);
      EvalStmt(m, VarDecl(x, true, Function([], body, false, false), NOWHERE), env, st, fuel)
        == Normal(env1, st.(store := st.store + [Closure([], body, env1)]))
  {
    hide EvalExpr;
  }

  /** A declared function with a state variable's name that uses that name: the block ends, its rewrite
      never does, however much fuel it has. */
  lemma SelfForgotten(m: Machine, x: string, p: int, fuel: nat)
    requires m.k == 1 && x != "erm"
    ensures
      var env, st := StartEnv([x]), StartState([p]);
      && (fuel > 0 ==> EvalBlock(m, SelfReturning(x), env, st, fuel).Normal?)
      && EvalBlock(m, TransBlock(SelfReturning(x), [x], []), env, TState(m, [x], st), fuel) == Exhausted
  {
    hide TransBlock, EvalOperator, TransStmt, CallErm;
    SelfRewritten(x);
    var env, st := StartEnv([x]), StartState([p]);
    var t := TState(m, [x], st);
    assert |st.store| == 2 && |t.store| == 2 && t.store[1] == Erm;
    var env1 := Env(env.vars[x := 2], env.shadowed + [x]);
    var ss, ss' := SelfReturning(x), SelfCalling(x);
    var c, c' := Closure([], ss[0].init.body, env1), Closure([], ss'[0].init.body, env1);
    var st1, t1 := st.(store := st.store + [c]), t.(store := t.store + [c']);
    SelfDeclared(m, x, ss[0].init.body, env, st, fuel);
    SelfDeclared(m, x, ss'[0].init.body, env, t, fuel);
    TwoSteps(m, ss, env, st, fuel, env1, st1);
    TwoSteps(m, ss', env, t, fuel, env1, t1);
    CallNothing(m, x, c, env1, st1, fuel);
    CallNothing(m, x, c', env1, t1, fuel);
    CallsForEver(m, x, c', t1, fuel);
    if fuel > 0 {
      assert EvalExpr(m, Variable(x, NOWHERE), env1, st1, fuel - 1) == Val(c, st1);
      hide EvalExpr;
      assert EvalStmt(m, c.body, env1, st1, fuel - 1) == Returned(c, st1);
    }
  }

  // A script that declares a state variable's name again, assigns to it and prints it.
  function DeclaredAgain(x: string): seq<Stmt>
  {
    [ExportedShadow(x)[0].inner, ExportedShadow(x)[1], ExportedShadow(x)[2]]
  }

  lemma ThreeOfScript(m: Machine, ss: seq<Stmt>, env: Env, st: State, fuel: nat, env1: Env, env2: Env, st1: State,
      st2: State, st3: State)
    requires |ss| == 3 && env2 == env1.(shadowed := env.shadowed)
    requires EvalStmt(m, ss[0], env, st, fuel) == Normal(env1, st1)
    requires EvalStmt(m, ss[1], env2, st1, fuel) == Normal(env2, st2)
    requires EvalStmt(m, ss[2], env2, st2, fuel) == Normal(env2, st3)
    ensures EvalScript(m, ss, env, st, fuel) == Normal(env2, st3)
  {
    hide EvalStmt;
    assert env2.(shadowed := env2.shadowed) == env2;
    assert EvalScript(m, ss[1..][1..][1..], env2, st3, fuel) == Normal(env2, st3);
    assert EvalScript(m, ss[1..][1..], env2, st2, fuel) == Normal(env2, st3);
    assert EvalScript(m, ss[1..], env2, st1, fuel) == Normal(env2, st3);
  }

  lemma RedeclarationRewritten(x: string)
    ensures TransScript(DeclaredAgain(x), [x]) == [DeclaredAgain(x)[0], RewrittenShadow(x)[1], RewrittenShadow(x)[2]]
  {
    var five, seven := Literal("5"), Literal("7");
    assert Reactive(x, [x], []);
    assert TransExpr(five, [x], []) == five && TransExpr(seven, [x], []) == seven;
    assert TransStmt(DeclaredAgain(x)[0], [x], []) == DeclaredAgain(x)[0];
    assert TransStmt(DeclaredAgain(x)[1], [x], []) == RewrittenShadow(x)[1];
    assert TransStmt(DeclaredAgain(x)[2], [x], []) == RewrittenShadow(x)[2];
  }

  lemma PlainDecl(m: Machine, x: string, env: Env, st: State, fuel: nat)
    ensures EvalStmt(m, DeclaredAgain(x)[0], env, st, fuel)
      == Normal(Env(env.vars[x := |st.store|], env.shadowed + [x]), AfterDecl(m, st))
  {
    LiteralEval(m, "5", env, st, fuel);
  }

  /** The statements of a script are rewritten one by one, with nothing shadowed: one that declares a
      state variable again prints the value assigned last, its rewrite the declared one. */
  lemma RedeclarationForgotten(m: Machine, x: string, p: int, fuel: nat)
    requires m.k == 1 && x != "erm"
    ensures
      var env, st := StartEnv([x]), StartState([p]);
      var d := EvalScript(m, DeclaredAgain(x), env, st, fuel);
      var d' := EvalScript(m, TransScript(DeclaredAgain(x), [x]), env, TState(m, [x], st), fuel);
      d.Normal? && d.st.out == [Prim(m.literal("7"))] && d'.Normal? && d'.st.out == [Prim(m.literal("5"))]
  {
    hide EvalStmt, EvalExpr, EvalScript, TransStmt;
    var env, st := StartEnv([x]), StartState([p]);
    var t := TState(m, [x], st);
    var seven := Prim(m.literal("7"));
    RedeclarationRewritten(x);
    PlainDecl(m, x, env, st, fuel);
    PlainDecl(m, x, env, t, fuel);
    PlainRun(m, x, p, fuel);
    RewrittenRun(m, x, p, fuel);
    var env2, st1, t1 := Declared5(x), AfterDecl(m, st), AfterDecl(m, t);
    var env1 := env2.(shadowed := [] + [x]);
    var st2 := st1.(store := st1.store[2 := seven]);
    assert |st.store| == 2 && |t.store| == 2;
    ThreeOfScript(m, DeclaredAgain(x), env, st, fuel, env1, env2, st1, st2, st2.(out := [seven]));
    ThreeOfScript(m, TransScript(DeclaredAgain(x), [x]), env, t, fuel, env1, env2, t1, t1,
      t1.(out := [Prim(m.literal("5"))]));
  }

  // A script that declares erm and prints a state variable.
  function ErmDeclared(x: string): seq<Stmt>
  {
    [VarDecl("erm", false, Literal("5"), NOWHERE), Print(Variable(x, NOWHERE))]
  }

  lemma ErmRewritten(x: string)
    ensures TransScript(ErmDeclared(x), [x]) == [ErmDeclared(x)[0], Print(ErmCall("get", x, NOWHERE, []))]
  {
    var five := Literal("5");
    assert Reactive(x, [x], []);
    assert TransExpr(five, [x], []) == five;
    assert TransStmt(ErmDeclared(x)[0], [x], []) == ErmDeclared(x)[0];
    assert TransExpr(Variable(x, NOWHERE), [x], []) == ErmCall("get", x, NOWHERE, []);
  }

  lemma TwoOfScript(m: Machine, ss: seq<Stmt>, env: Env, st: State, fuel: nat, env1: Env, st1: State)
    requires |ss| == 2 && EvalStmt(m, ss[0], env, st, fuel) == Normal(env1, st1)
    ensures
      var env2 := env1.(shadowed := env.shadowed);
      var d := EvalStmt(m, ss[1], env2, st1, fuel);
      EvalScript(m, ss, env, st, fuel) == if d.Normal? then Normal(d.env.(shadowed := env.shadowed), d.st) else d
  {
    hide EvalStmt;
    var env2 := env1.(shadowed := env.shadowed);
    var d := EvalStmt(m, ss[1], env2, st1, fuel);
    if d.Normal? {
      var env3 := d.env.(shadowed := env.shadowed);
      assert EvalScript(m, ss[1..][1..], env3, d.st, fuel) == Normal(env3, d.st);
    }
  }

  // A property of a number is no function.
  lemma NoRuntime(m: Machine, x: string, env: Env, t: State, p: int, fuel: nat)
    requires "erm" in env.vars && env.vars["erm"] < |t.store| && t.store[env.vars["erm"]] == Prim(p)
    ensures EvalExpr(m, ErmCall("get", x, NOWHERE, []), env, t, fuel) == Raise(Prim(m.error), t)
  {
    hide EvalStmt, Apply;
    var erm := Variable("erm", NOWHERE);
    var f, e := Get(erm, "get"), ErmCall("get", x, NOWHERE, []);
    assert EvalExpr(m, erm, env, t, fuel) == Val(Prim(p), t);
    assert EvalOperands(m, f, 1, env, t, fuel) == Vals([], t);
    assert EvalOperands(m, f, 0, env, t, fuel) == Vals([Prim(p)] + [], t);
    assert EvalExpr(m, f, env, t, fuel) == Raise(Prim(m.error), t);
    assert Operands(e)[0] == f;
    assert EvalOperands(m, e, 0, env, t, fuel) == Raised(Prim(m.error), t);
  }

  /** A script that binds erm hides the runtime from its rewrite: the script prints the state variable,
      its rewrite throws. */
  lemma ErmHidden(m: Machine, x: string, p: int, fuel: nat)
    requires m.k == 1 && x != "erm"
    ensures
      var env, st := StartEnv([x]), StartState([p]);
      var d := EvalScript(m, ErmDeclared(x), env, st, fuel);
      var d' := EvalScript(m, TransScript(ErmDeclared(x), [x]), env, TState(m, [x], st), fuel);
      d.Normal? && d.st.out == [Prim(p)] && d'.Threw? && d'.st.out == []
  {
    hide TransStmt, EvalOperator, EvalOperands, CallErm;
    var env, st := StartEnv([x]), StartState([p]);
    var t := TState(m, [x], st);
    assert |st.store| == 2 && |t.store| == 2 && st.store[0] == Prim(p);
    ErmRewritten(x);
    var ss, ss' := ErmDeclared(x), TransScript(ErmDeclared(x), [x]);
    var env1 := Env(env.vars["erm" := 2], env.shadowed + ["erm"]);
    var env2 := env1.(shadowed := env.shadowed);
    var five := Prim(m.literal("5"));
    var st1, t1 := st.(store := st.store + [five]), t.(store := t.store + [five]);
    LiteralEval(m, "5", env, st, fuel);
    LiteralEval(m, "5", env, t, fuel);
    assert EvalStmt(m, ss[0], env, st, fuel) == Normal(env1, st1);
    assert EvalStmt(m, ss[0], env, t, fuel) == Normal(env1, t1);
    TwoOfScript(m, ss, env, st, fuel, env1, st1);
    TwoOfScript(m, ss', env, t, fuel, env1, t1);
    assert EvalExpr(m, Variable(x, NOWHERE), env2, st1, fuel) == Val(Prim(p), st1);
    NoRuntime(m, x, env2, t1, m.literal("5"), fuel);
    hide EvalExpr;
    assert EvalStmt(m, ss[1], env2, st1, fuel) == Normal(env2, st1.(out := st1.out + [Prim(p)]));
    assert EvalStmt(m, ss'[1], env2, t1, fuel) == Threw(Prim(m.error), t1);
  }

  // A step of a state variable's .value.
  function CellStepped(x: string): Stmt
  {
    ExprStmt(Postfix("++", Get(Variable(x, NOWHERE), "value")))
  }

  /** The rewrite of x.value++ steps the call that reads the cell: the statement counts, its rewrite
      throws. */
  lemma CellStepForgotten(m: Machine, x: string, p: int, q: int, fuel: nat)
    requires m.k == 1 && x != "erm" && m.bump(SeesPrim(p), 1) == Some(q)
    ensures
      var env, st := StartEnv([x]), StartState([p]);
      var t := TState(m, [x], st);
      && EvalStmt(m, CellStepped(x), env, st, fuel) == Normal(env, st.(store := st.store[0 := Prim(q)]))
      && EvalStmt(m, TransStmt(CellStepped(x), [x], []), env, t, fuel) == Threw(Prim(m.error), t)
  {
    hide EvalOperator, EvalOperands, CallErm;
    var env, st := StartEnv([x]), StartState([p]);
    var cell, get := Get(Variable(x, NOWHERE), "value"), ErmCall("get", x, NOWHERE, []);
    assert Reactive(x, [x], []);
    assert TransExpr(cell, [x], []) == get;
    assert TransExpr(Postfix("++", cell), [x], []) == Postfix("++", get);
    assert env.vars[x] == 0 && st.store[0] == Prim(p) && |st.store| == 2;
    assert EvalStep(m, "++", cell, env, st, fuel, false) == Val(Prim(p), st.(store := st.store[0 := Prim(q)]));
  }
}
