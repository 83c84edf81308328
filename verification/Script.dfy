/** What a script does: a fuel-indexed evaluator of the syntax tree, scoped in the order of the
    statements.  The runtime's erm.get, erm.set, erm.update and erm.update_pre work on cells
    (libs/init/modules/erm/runtime.js). */
module Script {
  import opened Options
  import opened Ast

  // The variables in scope and their places in the store; shadowed lists the names bound since the
  // script began, and is never read.
  datatype Env = Env(vars: map<string, nat>, shadowed: seq<string>)

  datatype Value =
    | Prim(p: int)
    | Ref(addr: nat)                                        // an object or array
    | Closure(params: seq<string>, body: Stmt, env: Env)
    | Signal(cell: nat)                                     // a reactive cell
    | Erm                                                   // the runtime object
    | ErmFn(name: string)

  datatype State = State(store: seq<Value>, cells: seq<Value>, heap: seq<map<string, Value>>, out: seq<Value>)

  // What an operator sees of a value.
  datatype View = SeesPrim(p: int) | SeesRef(addr: nat) | SeesFunction

  /** Everything the language leaves to its host: operators, literals, the keys of array elements.
      The first k places of the store belong to the state variables. */
  datatype Machine = Machine(
    k: nat,
    literal: string -> int,
    unary: (string, View) -> Option<int>,
    binary: (string, View, View) -> Option<int>,
    bump: (View, int) -> Option<int>,
    truthy: View -> bool,
    stops: (string, View) -> bool,
    same: (View, View) -> bool,
    key: View -> string,
    indexKey: nat -> string,
    nothing: int,
    error: int)

  datatype Result = Val(v: Value, st: State) | Raise(e: Value, st: State) | Timeout

  datatype Results = Vals(vs: seq<Value>, st: State) | Raised(e: Value, st: State) | TimedOut

  // How a statement ends; a declaration leaves a larger scope.
  datatype Done =
    | Normal(env: Env, st: State)
    | Broke(st: State)
    | Continued(st: State)
    | Returned(v: Value, st: State)
    | Threw(e: Value, st: State)
    | Exhausted

  function ViewOf(v: Value): View
  {
    match v case Prim(p) => SeesPrim(p) case Ref(a) => SeesRef(a) case _ => SeesFunction
  }

  function Fail(m: Machine, st: State): Result { Raise(Prim(m.error), st) }

  function OfOption(m: Machine, r: Option<int>, st: State): Result
  {
    if r.Some? then Val(Prim(r.value), st) else Fail(m, st)
  }

  // ---------------------------------------------------------------- variables and objects

  function Bind(env: Env, st: State, x: string, v: Value): (Env, State)
  {
    (Env(env.vars[x := |st.store|], env.shadowed + [x]), st.(store := st.store + [v]))
  }

  // A declared function sees its own name.
  function Declare(env: Env, st: State, x: string, f: Expr): (Env, State)
    requires f.Function?
  {
    Bind(env, st, x, Closure(f.params, f.body, Env(env.vars[x := |st.store|], env.shadowed + [x])))
  }

  function BindAll(m: Machine, env: Env, st: State, xs: seq<string>, vs: seq<Value>): (Env, State)
    decreases |xs|
  {
    if xs == [] then (env, st)
    else
      var (env', st') := Bind(env, st, xs[0], if vs == [] then Prim(m.nothing) else vs[0]);
      BindAll(m, env', st', xs[1..], if vs == [] then [] else vs[1..])
  }

  function Lookup(m: Machine, x: string, env: Env, st: State): Result
  {
    if x in env.vars && env.vars[x] < |st.store| then Val(st.store[env.vars[x]], st) else Fail(m, st)
  }

  function Store(m: Machine, x: string, v: Value, env: Env, st: State): Result
  {
    if x in env.vars && env.vars[x] < |st.store| then Val(v, st.(store := st.store[env.vars[x] := v])) else Fail(m, st)
  }

  // x++ and the like: the new value, and what the expression is worth.
  function BumpVar(m: Machine, op: string, x: Expr, env: Env, st: State, pre: bool): Result
  {
    if !x.Variable? || (op != "++" && op != "--") then Fail(m, st)
    else if x.name in env.vars && env.vars[x.name] < |st.store| then
      var before := st.store[env.vars[x.name]];
      match m.bump(ViewOf(before), if op == "++" then 1 else -1)
      case Some(p) => Val(if pre then Prim(p) else before, st.(store := st.store[env.vars[x.name] := Prim(p)]))
      case None => Fail(m, st)
    else Fail(m, st)
  }

  function GetProp(m: Machine, obj: Value, prop: string, st: State): Result
  {
    if obj.Ref? && obj.addr < |st.heap| then
      Val(if prop in st.heap[obj.addr] then st.heap[obj.addr][prop] else Prim(m.nothing), st)
    else if obj.Erm? && prop in ["get", "set", "update", "update_pre"] then Val(ErmFn(prop), st)
    else Fail(m, st)
  }

  function SetProp(m: Machine, obj: Value, prop: string, v: Value, st: State): Result
  {
    if obj.Ref? && obj.addr < |st.heap| then Val(v, st.(heap := st.heap[obj.addr := st.heap[obj.addr][prop := v]]))
    else Fail(m, st)
  }

  function StepProp(m: Machine, op: string, obj: Value, key: string, st: State, pre: bool): Result
  {
    if op != "++" && op != "--" then Fail(m, st)
    else match GetProp(m, obj, key, st)
      case Val(before, _) =>
        (match m.bump(ViewOf(before), if op == "++" then 1 else -1)
         case Some(p) =>
           (match SetProp(m, obj, key, Prim(p), st)
            case Val(_, st') => Val(if pre then Prim(p) else before, st')
            case r => r)
         case None => Fail(m, st))
      case r => r
  }

  function Elements(m: Machine, vs: seq<Value>, i: nat): map<string, Value>
    decreases |vs|
  {
    if vs == [] then map[] else Elements(m, vs[1..], i + 1)[m.indexKey(i) := vs[0]]
  }

  function Fields(ps: seq<(string, Expr)>, vs: seq<Value>): map<string, Value>
    decreases |ps|
  {
    if ps == [] || vs == [] then map[] else Fields(ps[1..], vs[1..])[ps[0].0 := vs[0]]
  }

  function NewObject(props: map<string, Value>, st: State): Result
  {
    Val(Ref(|st.heap|), st.(heap := st.heap + [props]))
  }

  // The elements of an array, in order.
  function Items(m: Machine, props: map<string, Value>, i: nat): seq<Value>
    decreases |props| - i
  {
    if i < |props| && m.indexKey(i) in props then [props[m.indexKey(i)]] + Items(m, props, i + 1) else []
  }

  function Argument(m: Machine, args: seq<Value>, i: nat): Value
  {
    if i < |args| then args[i] else Prim(m.nothing)
  }

  // erm.get of anything that is no function.  An object with a value property is read there; anything
  // else that is no cell is its own content.
  function ErmGet(m: Machine, x: Value, st: State): Result
  {
    if x.Signal? && x.cell < |st.cells| then Val(st.cells[x.cell], st)
    else if x.Ref? && x.addr < |st.heap| && "value" in st.heap[x.addr] then GetProp(m, x, "value", st)
    else if x.Prim? || x.Ref? || x.Erm? then Val(x, st)
    else Fail(m, st)
  }

  // erm.set returns the new value.
  function ErmSet(m: Machine, x: Value, v: Value, st: State): Result
  {
    if x.Signal? && x.cell < |st.cells| then Val(v, st.(cells := st.cells[x.cell := v]))
    else if x.Ref? && x.addr < |st.heap| && "value" in st.heap[x.addr] then SetProp(m, x, "value", v, st)
    else if x.Prim? || x.Ref? || x.Erm? then Val(v, st)
    else Fail(m, st)
  }

  // One up if the step is one or left out, and one down otherwise.
  function Direction(args: seq<Value>): int
  {
    if |args| < 2 || args[1] == Prim(1) then 1 else -1
  }

  // erm's functions: update returns the old value, update_pre the new one.
  function CallErm(m: Machine, f: string, args: seq<Value>, st: State): Result
  {
    var x := Argument(m, args, 0);
    if f == "get" then ErmGet(m, x, st)
    else if f == "set" then ErmSet(m, x, Argument(m, args, 1), st)
    else match ErmGet(m, x, st)
      case Val(before, _) =>
        (match m.bump(ViewOf(before), Direction(args))
         case Some(p) =>
           (match ErmSet(m, x, Prim(p), st)
            case Val(_, st') => Val(if f == "update_pre" then Prim(p) else before, st')
            case r => r)
         case None => Fail(m, st))
      case r => r
  }

  // ---------------------------------------------------------------- expressions

  // The expressions that are evaluated first, from left to right.
  function Operands(e: Expr): seq<Expr>
  {
    match e
    case Binary(l, _, r) => [l, r]
    case Unary(_, x) => [x]
    case Call(callee, args) => [callee] + args
    case Get(obj, _) => [obj]
    case Set(obj, _, val) => [obj, val]
    case Array(es) => es
    case Object(ps) => seq(|ps|, i requires 0 <= i < |ps| => ps[i].1)
    case StructInst(_, ps, _) => seq(|ps|, i requires 0 <= i < |ps| => ps[i].1)
    case GetIndex(obj, idx) => [obj, idx]
    case SetIndex(obj, idx, val) => [obj, idx, val]
    case Spawn(x) => [x]
    case TypeCast(x, _, _) => [x]
    case Await(x) => [x]
    case New(x) => [x]
    case _ => []
  }

  lemma OperandSmaller(e: Expr, i: nat)
    requires i < |Operands(e)|
    ensures e decreases to Operands(e)[i]
  {
    if e.Object? {
      assert e decreases to e.pairs[i];
    } else if e.StructInst? {
      assert e decreases to e.pairs[i];
    }
  }

  // What is done with the operands' values.
  function Finish(m: Machine, e: Expr, vs: seq<Value>, st: State): Result
    requires |vs| == |Operands(e)|
  {
    match e
    case Binary(_, op, _) => OfOption(m, m.binary(op, ViewOf(vs[0]), ViewOf(vs[1])), st)
    case Unary(op, _) => OfOption(m, m.unary(op, ViewOf(vs[0])), st)
    case Get(_, prop) => GetProp(m, vs[0], prop, st)
    case Set(_, prop, _) => SetProp(m, vs[0], prop, vs[1], st)
    case GetIndex(_, _) => GetProp(m, vs[0], m.key(ViewOf(vs[1])), st)
    case SetIndex(_, _, _) => SetProp(m, vs[0], m.key(ViewOf(vs[1])), vs[2], st)
    case Array(_) => NewObject(Elements(m, vs, 0), st)
    case Object(ps) => NewObject(Fields(ps, vs), st)
    case StructInst(_, ps, _) => NewObject(Fields(ps, vs), st)
    case Spawn(_) => Val(vs[0], st)
    case TypeCast(_, _, _) => Val(vs[0], st)
    case Await(_) => Val(vs[0], st)
    case New(_) => Val(vs[0], st)
    case _ => Fail(m, st)
  }

  // A variable that lives in one of the first k places; its .value is its content.
  predicate IsState(m: Machine, x: Expr, env: Env)
  {
    x.Variable? && x.name in env.vars && env.vars[x.name] < m.k
  }

  // What an expression that ended early makes of its statement.
  function Early(r: Result): Done
    requires !r.Val?
  {
    if r.Raise? then Threw(r.e, r.st) else Exhausted
  }

  // A statement's own scope ends with it.
  function Leave(d: Done, env: Env): Done
  {
    if d.Normal? then Normal(env, d.st) else d
  }

  // After a finally block the earlier ending counts, in the later state.
  function Resume(d: Done, st: State): Done
    requires !d.Exhausted?
  {
    match d
    case Normal(env, _) => Normal(env, st)
    case Broke(_) => Broke(st)
    case Continued(_) => Continued(st)
    case Returned(v, _) => Returned(v, st)
    case Threw(e, _) => Threw(e, st)
  }

  function OffBreak(d: Done, env: Env): Done
  {
    if d.Broke? then Normal(env, d.st) else Leave(d, env)
  }

  function ResultOf(m: Machine, d: Done): Result
  {
    match d
    case Returned(v, st) => Val(v, st)
    case Threw(e, st) => Raise(e, st)
    case Exhausted => Timeout
    case Normal(_, st) => Val(Prim(m.nothing), st)
    case Broke(st) => Val(Prim(m.nothing), st)
    case Continued(st) => Val(Prim(m.nothing), st)
  }

  function EvalExpr(m: Machine, e: Expr, env: Env, st: State, fuel: nat): Result
    decreases fuel, 1, e, 2
  {
    match e
    case Literal(text) => Val(Prim(m.literal(text)), st)
    case Variable(x, _) => Lookup(m, x, env, st)
    case Assign(x, val, _) =>
      (match EvalExpr(m, val, env, st, fuel)
       case Val(v, st') => Store(m, x, v, env, st')
       case other => other)
    case Logical(l, op, r) =>
      (match EvalExpr(m, l, env, st, fuel)
       case Val(v, st') => if m.stops(op, ViewOf(v)) then Val(v, st') else EvalExpr(m, r, env, st', fuel)
       case other => other)
    case Ternary(c, t, f) =>
      (match EvalExpr(m, c, env, st, fuel)
       case Val(v, st') =>
         if m.truthy(ViewOf(v)) then EvalExpr(m, t, env, st', fuel) else EvalExpr(m, f, env, st', fuel)
       case other => other)
    case Prefix(op, x) =>
      if x.Get? || x.GetIndex? then EvalStep(m, op, x, env, st, fuel, true) else BumpVar(m, op, x, env, st, true)
    case Postfix(op, x) =>
      if x.Get? || x.GetIndex? then EvalStep(m, op, x, env, st, fuel, false) else BumpVar(m, op, x, env, st, false)
    case Function(ps, body, _, _) => Val(Closure(ps, body, env), st)
    case Set(obj, prop, val) =>
      if IsState(m, obj, env) && prop == "value" then
        (match EvalExpr(m, val, env, st, fuel)
         case Val(v, st') => Store(m, obj.name, v, env, st')
         case other => other)
      else EvalOperator(m, e, env, st, fuel)
    case Get(obj, prop) =>
      if IsState(m, obj, env) && prop == "value" then Lookup(m, obj.name, env, st)
        else EvalOperator(m, e, env, st, fuel)
    case Call(_, _) =>
      (match EvalOperands(m, e, 0, env, st, fuel)
       case Vals(vs, st') => Apply(m, vs[0], vs[1..], st', fuel)
       case Raised(v, st') => Raise(v, st')
       case TimedOut => Timeout)
    case _ => EvalOperator(m, e, env, st, fuel)
  }

  // o.p++ and o[i]++; a state variable's .value is its content.
  function EvalStep(m: Machine, op: string, x: Expr, env: Env, st: State, fuel: nat, pre: bool): Result
    requires x.Get? || x.GetIndex?
    decreases fuel, 1, x, 2
  {
    if x.Get? && x.prop == "value" && IsState(m, x.obj, env) then BumpVar(m, op, x.obj, env, st, pre)
    else match EvalOperands(m, x, 0, env, st, fuel)
      case Vals(vs, st') => StepProp(m, op, vs[0], if x.Get? then x.prop else m.key(ViewOf(vs[1])), st', pre)
      case Raised(v, st') => Raise(v, st')
      case TimedOut => Timeout
  }

  function EvalOperator(m: Machine, e: Expr, env: Env, st: State, fuel: nat): Result
    decreases fuel, 1, e, 1, |Operands(e)|
  {
    match EvalOperands(m, e, 0, env, st, fuel)
    case Vals(vs, st') => Finish(m, e, vs, st')
    case Raised(v, st') => Raise(v, st')
    case TimedOut => Timeout
  }

  function EvalOperands(m: Machine, e: Expr, i: nat, env: Env, st: State, fuel: nat): (r: Results)
    requires i <= |Operands(e)|
    ensures r.Vals? ==> |r.vs| == |Operands(e)| - i
    decreases fuel, 1, e, 0, |Operands(e)| - i
  {
    if i == |Operands(e)| then Vals([], st)
    else
      OperandSmaller(e, i);
      match EvalExpr(m, Operands(e)[i], env, st, fuel)
      case Raise(v, st') => Raised(v, st')
      case Timeout => TimedOut
      case Val(v, st') =>
        match EvalOperands(m, e, i + 1, env, st', fuel)
        case Vals(vs, st'') => Vals([v] + vs, st'')
        case other => other
  }

  // erm.get of a function calls it with nothing, erm.set with the new value.
  function Apply(m: Machine, f: Value, args: seq<Value>, st: State, fuel: nat): Result
    decreases fuel, 0, 1
  {
    if f.ErmFn? then
      if args != [] && args[0].Closure? then
        if f.name == "get" then Enter(m, args[0], [], st, fuel)
        else if f.name == "set" then Enter(m, args[0], [Argument(m, args, 1)], st, fuel)
        else Fail(m, st)
      else CallErm(m, f.name, args, st)
    else Enter(m, f, args, st, fuel)
  }

  function Enter(m: Machine, f: Value, args: seq<Value>, st: State, fuel: nat): Result
    decreases fuel, 0, 0
  {
    if !f.Closure? then Fail(m, st)
    else if fuel == 0 then Timeout
    else
      var (env', st') := BindAll(m, f.env, st, f.params, args);
      ResultOf(m, EvalStmt(m, f.body, env', st', fuel - 1))
  }

  // ---------------------------------------------------------------- statements

  function EvalStmt(m: Machine, s: Stmt, env: Env, st: State, fuel: nat): Done
    decreases fuel, 1, s, 4
  {
    match s
    case ExprStmt(e) =>
      (match EvalExpr(m, e, env, st, fuel) case Val(_, st') => Normal(env, st') case r => Early(r))
    case Print(e) =>
      (match EvalExpr(m, e, env, st, fuel)
       case Val(v, st') => Normal(env, st'.(out := st'.out + [v]))
       case r => Early(r))
    case VarDecl(x, _, init, _) =>
      if init.Function? then (var (env', st') := Declare(env, st, x, init); Normal(env', st'))
      else (match EvalExpr(m, init, env, st, fuel)
            case Val(v, st') => (var (env', st'') := Bind(env, st', x, v); Normal(env', st''))
            case r => Early(r))
    case Export(inner) =>
      var d := EvalStmt(m, inner, env, st, fuel);
      if inner.VarDecl? && d.Normal? then Normal(d.env.(shadowed := env.shadowed), d.st) else Leave(d, env)
    case Block(ss) => Leave(EvalBlock(m, ss, env, st, fuel), env)
    case If(c, t, f) =>
      (match EvalExpr(m, c, env, st, fuel)
       case Val(v, st') =>
         if m.truthy(ViewOf(v)) then Leave(EvalStmt(m, t, env, st', fuel), env)
         else if f.Some? then Leave(EvalStmt(m, f.value, env, st', fuel), env) else Normal(env, st')
       case r => Early(r))
    case While(c, b) => EvalWhile(m, s, env, st, fuel)
    case For(x, start, end, b) =>
      (match EvalExpr(m, start, env, st, fuel)
       case Val(v, st1) =>
         (match EvalExpr(m, end, env, st1, fuel)
          case Val(w, st2) =>
            if v.Prim? && w.Prim? then EvalRange(m, s, v.p, w.p, env, st2, fuel) else Threw(Prim(m.error), st2)
          case r => Early(r))
       case r => Early(r))
    case ForIn(x, iter, b) =>
      (match EvalExpr(m, iter, env, st, fuel)
       case Val(v, st1) =>
         if v.Ref? && v.addr < |st1.heap| then EvalEach(m, s, Items(m, st1.heap[v.addr], 0), env, st1, fuel)
         else Threw(Prim(m.error), st1)
       case r => Early(r))
    case Break => Broke(st)
    case Continue => Continued(st)
    case Throw(e) => (match EvalExpr(m, e, env, st, fuel) case Val(v, st') => Threw(v, st') case r => Early(r))
    case Return(e, _) =>
      if e.None? then Returned(Prim(m.nothing), st)
      else (match EvalExpr(m, e.value, env, st, fuel) case Val(v, st') => Returned(v, st') case r => Early(r))
    case Try(t, c, f) =>
      var tried := Leave(EvalStmt(m, t, env, st, fuel), env);
      var caught :=
        if tried.Threw? && c.Some? then
          (var (env', st') := Bind(env, tried.st, c.value.0, tried.e);
           Leave(EvalStmt(m, c.value.1, env', st', fuel), env))
        else tried;
      if f.None? || caught.Exhausted? then caught
      else
        var last := Leave(EvalStmt(m, f.value, env, caught.st, fuel), env);
        if last.Normal? then Resume(caught, last.st) else last
    case Switch(e, _, _) =>
      (match EvalExpr(m, e, env, st, fuel)
       case Val(v, st') => OffBreak(EvalCases(m, v, s, 0, env, st', fuel), env)
       case r => Early(r))
    case Concurrent(b) => Leave(EvalStmt(m, b, env, st, fuel), env)
    case Sync(b) => Leave(EvalStmt(m, b, env, st, fuel), env)
    case _ => Normal(env, st)
  }

  function EvalBlock(m: Machine, ss: seq<Stmt>, env: Env, st: State, fuel: nat): Done
    decreases fuel, 1, ss, 0
  {
    if ss == [] then Normal(env, st)
    else match EvalStmt(m, ss[0], env, st, fuel)
      case Normal(env', st') => EvalBlock(m, ss[1..], env', st', fuel)
      case other => other
  }

  function EvalWhile(m: Machine, s: Stmt, env: Env, st: State, fuel: nat): Done
    requires s.While?
    decreases fuel, 1, s, 3
  {
    if fuel == 0 then Exhausted
    else match EvalExpr(m, s.cond, env, st, fuel)
      case Val(v, st') =>
        if !m.truthy(ViewOf(v)) then Normal(env, st')
        else (match EvalStmt(m, s.body, env, st', fuel)
              case Normal(_, st'') => EvalWhile(m, s, env, st'', fuel - 1)
              case Continued(st'') => EvalWhile(m, s, env, st'', fuel - 1)
              case Broke(st'') => Normal(env, st'')
              case other => other)
      case r => Early(r)
  }

  // for x in i..end: x is bound anew each time round.
  function EvalRange(m: Machine, s: Stmt, i: int, end: int, env: Env, st: State, fuel: nat): Done
    requires s.For?
    decreases fuel, 1, s, 3
  {
    if fuel == 0 then Exhausted
    else if i >= end then Normal(env, st)
    else
      var (env', st') := Bind(env, st, s.v, Prim(i));
      match EvalStmt(m, s.body, env', st', fuel)
      case Normal(_, st'') => EvalRange(m, s, i + 1, end, env, st'', fuel - 1)
      case Continued(st'') => EvalRange(m, s, i + 1, end, env, st'', fuel - 1)
      case Broke(st'') => Normal(env, st'')
      case other => other
  }

  function EvalEach(m: Machine, s: Stmt, items: seq<Value>, env: Env, st: State, fuel: nat): Done
    requires s.ForIn?
    decreases fuel, 1, s, 3, |items|
  {
    if items == [] then Normal(env, st)
    else
      var (env', st') := Bind(env, st, s.v, items[0]);
      match EvalStmt(m, s.body, env', st', fuel)
      case Normal(_, st'') => EvalEach(m, s, items[1..], env, st'', fuel)
      case Continued(st'') => EvalEach(m, s, items[1..], env, st'', fuel)
      case Broke(st'') => Normal(env, st'')
      case other => other
  }

  // The first case from i on with an equal value runs, else the default.
  function EvalCases(m: Machine, v: Value, s: Stmt, i: nat, env: Env, st: State, fuel: nat): Done
    requires s.Switch? && i <= |s.cases|
    decreases fuel, 1, s, 3, |s.cases| - i
  {
    if i == |s.cases| then
      if s.defaultB.Some? then EvalStmt(m, s.defaultB.value, env, st, fuel) else Normal(env, st)
    else
      assert s decreases to s.cases[i];
      match EvalMatch(m, v, s.cases[i].values, env, st, fuel)
      case Val(w, st') =>
        if w == Prim(1) then EvalStmt(m, s.cases[i].body, env, st', fuel) else EvalCases(m, v, s, i + 1, env, st', fuel)
      case r => Early(r)
  }

  // Is one of the values equal to v?  Prim(1) when it is.
  function EvalMatch(m: Machine, v: Value, es: seq<Expr>, env: Env, st: State, fuel: nat): Result
    decreases fuel, 1, es, 0
  {
    if es == [] then Val(Prim(0), st)
    else match EvalExpr(m, es[0], env, st, fuel)
      case Val(w, st') =>
        if m.same(ViewOf(v), ViewOf(w)) then Val(Prim(1), st') else EvalMatch(m, v, es[1..], env, st', fuel)
      case r => r
  }

  // The statements of a script, one after the other.
  function EvalScript(m: Machine, ss: seq<Stmt>, env: Env, st: State, fuel: nat): Done
    decreases |ss|
  {
    if ss == [] then Normal(env, st)
    else match EvalStmt(m, ss[0], env, st, fuel)
      case Normal(env', st') => EvalScript(m, ss[1..], env'.(shadowed := env.shadowed), st', fuel)
      case other => other
  }

  // ---------------------------------------------------------------- what steps and calls give

  // A prefix step gives what reading gives afterwards, a postfix step what it gave before; both leave
  // the same behind.
  lemma VariableSteps(m: Machine, op: string, x: Expr, env: Env, st: State)
    requires x.Variable?
    ensures
      var pre, post := BumpVar(m, op, x, env, st, true), BumpVar(m, op, x, env, st, false);
      && (pre.Val? ==> Lookup(m, x.name, env, pre.st) == pre)
      && (post.Val? ==> Lookup(m, x.name, env, st) == Val(post.v, st))
      && (pre.Val? <==> post.Val?) && (pre.Val? ==> pre.st == post.st)
  {
  }

  lemma PropertySteps(m: Machine, op: string, obj: Value, key: string, st: State)
    ensures
      var pre, post := StepProp(m, op, obj, key, st, true), StepProp(m, op, obj, key, st, false);
      && (pre.Val? ==> GetProp(m, obj, key, pre.st) == pre)
      && (post.Val? ==> GetProp(m, obj, key, st) == Val(post.v, st))
      && (pre.Val? <==> post.Val?) && (pre.Val? ==> pre.st == post.st)
  {
  }

  // A function that returns nothing gives the undefined value.
  lemma NothingReturned(m: Machine, env: Env, args: seq<Value>, st: State, fuel: nat)
    requires fuel > 0
    ensures Enter(m, Closure([], Block([]), env), args, st, fuel) == Val(Prim(m.nothing), st)
  {
    assert EvalBlock(m, [], env, st, fuel - 1) == Normal(env, st);
  }
}
