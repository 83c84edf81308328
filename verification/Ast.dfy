/** The syntax tree of a program (crates/eronom-frontend/src/ast.rs).  Types and operators are kept
    as their text. */
module Ast {
  import opened Options

  datatype Location = Location(file: string, line: nat, col: nat)

  const NOWHERE: Location := Location("", 0, 0)

  datatype Expr =
    | Literal(text: string)
    | Variable(name: string, loc: Location)
    | Assign(target: string, val: Expr, loc: Location)
    | Binary(l: Expr, op: string, r: Expr)
    | Logical(l: Expr, op: string, r: Expr)
    | Unary(op: string, inner: Expr)
    | Prefix(op: string, inner: Expr)
    | Postfix(op: string, inner: Expr)
    | Ternary(cond: Expr, thenE: Expr, elseE: Expr)
    | Call(callee: Expr, args: seq<Expr>)
    | Get(obj: Expr, prop: string)
    | Set(obj: Expr, prop: string, val: Expr)
    | Array(elements: seq<Expr>)
    | Object(pairs: seq<(string, Expr)>)
    | Function(params: seq<string>, body: Stmt, isAsync: bool, isSync: bool)
    | GetIndex(obj: Expr, idx: Expr)
    | SetIndex(obj: Expr, idx: Expr, val: Expr)
    | StructInst(struct: string, pairs: seq<(string, Expr)>, loc: Location)
    | Spawn(inner: Expr)
    | TypeCast(inner: Expr, ty: string, loc: Location)
    | Await(inner: Expr)
    | New(inner: Expr)

  datatype SwitchCase = SwitchCase(values: seq<Expr>, body: Stmt)

  datatype Method = Method(name: string, params: seq<string>, body: Stmt)

  datatype Stmt =
    | ExprStmt(e: Expr)
    | Print(e: Expr)
    | VarDecl(name: string, isConst: bool, init: Expr, loc: Location)
    | Block(stmts: seq<Stmt>)
    | If(cond: Expr, thenB: Stmt, elseB: Option<Stmt>)
    | While(cond: Expr, body: Stmt)
    | For(v: string, start: Expr, end: Expr, body: Stmt)
    | ForIn(v: string, iter: Expr, body: Stmt)
    | Break
    | Continue
    | Throw(e: Expr)
    | Try(tryB: Stmt, catchB: Option<(string, Stmt)>, finallyB: Option<Stmt>)
    | Switch(e: Expr, cases: seq<SwitchCase>, defaultB: Option<Stmt>)
    | Return(result: Option<Expr>, loc: Location)
    | Import(names: seq<string>, path: string)
    | Export(inner: Stmt)
    | Struct(name: string, fields: seq<(string, string)>, methods: seq<Method>, loc: Location)
    | Interface(name: string, loc: Location)
    | Concurrent(body: Stmt)
    | Sync(body: Stmt)
    | TypeAlias(name: string, ty: string, loc: Location)
    | Enum(name: string, variants: seq<string>, loc: Location)

  datatype Node = E(expr: Expr) | S(stmt: Stmt)

  function ExprNodes(es: seq<Expr>): (ns: seq<Node>)
    ensures |ns| == |es| && forall i :: 0 <= i < |es| ==> ns[i] == E(es[i])
  {
    seq(|es|, i requires 0 <= i < |es| => E(es[i]))
  }

  function PairNodes(ps: seq<(string, Expr)>): (ns: seq<Node>)
    ensures |ns| == |ps| && forall i :: 0 <= i < |ps| ==> ns[i] == E(ps[i].1)
  {
    seq(|ps|, i requires 0 <= i < |ps| => E(ps[i].1))
  }

  function StmtNodes(ss: seq<Stmt>): (ns: seq<Node>)
    ensures |ns| == |ss| && forall i :: 0 <= i < |ss| ==> ns[i] == S(ss[i])
  {
    seq(|ss|, i requires 0 <= i < |ss| => S(ss[i]))
  }

  function OptNodes(s: Option<Stmt>): seq<Node>
  {
    if s.Some? then [S(s.value)] else []
  }

  function CatchNodes(s: Option<(string, Stmt)>): seq<Node>
  {
    if s.Some? then [S(s.value.1)] else []
  }

  function CaseNodes(cs: seq<SwitchCase>): seq<Node>
  {
    if cs == [] then [] else ExprNodes(cs[0].values) + [S(cs[0].body)] + CaseNodes(cs[1..])
  }

  function MethodNodes(ms: seq<Method>): (ns: seq<Node>)
    ensures |ns| == |ms| && forall i :: 0 <= i < |ms| ==> ns[i] == S(ms[i].body)
  {
    seq(|ms|, i requires 0 <= i < |ms| => S(ms[i].body))
  }

  function ExprParts(e: Expr): seq<Node>
  {
    match e
    case Literal(_) => []
    case Variable(_, _) => []
    case Assign(_, val, _) => [E(val)]
    case Binary(l, _, r) => [E(l), E(r)]
    case Logical(l, _, r) => [E(l), E(r)]
    case Unary(_, x) => [E(x)]
    case Prefix(_, x) => [E(x)]
    case Postfix(_, x) => [E(x)]
    case Ternary(c, t, f) => [E(c), E(t), E(f)]
    case Call(callee, args) => [E(callee)] + ExprNodes(args)
    case Get(obj, _) => [E(obj)]
    case Set(obj, _, val) => [E(obj), E(val)]
    case Array(es) => ExprNodes(es)
    case Object(ps) => PairNodes(ps)
    case Function(_, _, _, _) => []
    case GetIndex(obj, idx) => [E(obj), E(idx)]
    case SetIndex(obj, idx, val) => [E(obj), E(idx), E(val)]
    case StructInst(_, ps, _) => PairNodes(ps)
    case Spawn(x) => [E(x)]
    case TypeCast(x, _, _) => [E(x)]
    case Await(x) => [E(x)]
    case New(x) => [E(x)]
  }

  function StmtParts(s: Stmt): seq<Node>
  {
    match s
    case ExprStmt(e) => [E(e)]
    case Print(e) => [E(e)]
    case VarDecl(_, _, init, _) => [E(init)]
    case Block(ss) => StmtNodes(ss)
    case If(c, t, f) => [E(c), S(t)] + OptNodes(f)
    case While(c, b) => [E(c), S(b)]
    case For(_, start, end, b) => [E(start), E(end), S(b)]
    case ForIn(_, iter, b) => [E(iter), S(b)]
    case Break => []
    case Continue => []
    case Throw(e) => [E(e)]
    case Try(t, c, f) => [S(t)] + CatchNodes(c) + OptNodes(f)
    case Switch(e, cs, d) => [E(e)] + CaseNodes(cs) + OptNodes(d)
    case Return(r, _) => if r.Some? then [E(r.value)] else []
    case Import(_, _) => []
    case Export(inner) => [S(inner)]
    case Struct(_, _, _, _) => []
    case Interface(_, _) => []
    case Concurrent(b) => [S(b)]
    case Sync(b) => [S(b)]
    case TypeAlias(_, _, _) => []
    case Enum(_, _, _) => []
  }

  // The direct constituents of a node that lie outside function bodies and struct methods:
  // evaluating the node evaluates nothing but these.
  function Parts(n: Node): seq<Node>
  {
    match n
    case E(e) => ExprParts(e)
    case S(s) => StmtParts(s)
  }

  // The bodies that evaluating the node leaves alone.
  function Bodies(n: Node): seq<Node>
  {
    match n
    case E(Function(_, body, _, _)) => [S(body)]
    case S(Struct(_, _, methods, _)) => MethodNodes(methods)
    case _ => []
  }

  // Everything a node directly contains.
  function Children(n: Node): seq<Node>
  {
    Parts(n) + Bodies(n)
  }

  // A constituent is structurally smaller than what it is a constituent of.
  ghost predicate ExprAbove(e: Expr, n: Node)
  {
    match n case E(x) => (e decreases to x) case S(s) => (e decreases to s)
  }

  ghost predicate StmtAbove(t: Stmt, n: Node)
  {
    match n case E(x) => (t decreases to x) case S(s) => (t decreases to s)
  }

  lemma {:induction false} CaseSmaller(cs: seq<SwitchCase>, i: nat)
    requires i < |CaseNodes(cs)|
    ensures match CaseNodes(cs)[i] case E(x) => (cs decreases to x) case S(s) => (cs decreases to s)
  {
    var n := |cs[0].values|;
    if i < n {
      assert cs decreases to cs[0];
      assert cs[0] decreases to cs[0].values[i];
    } else if i > n {
      assert CaseNodes(cs)[i] == CaseNodes(cs[1..])[i - n - 1];
      CaseSmaller(cs[1..], i - n - 1);
      assert cs decreases to cs[1..];
    }
  }

  lemma ExprPartSmaller(e: Expr, i: nat)
    requires i < |Children(E(e))|
    ensures ExprAbove(e, Children(E(e))[i])
  {
  }

  lemma StmtPartSmaller(t: Stmt, i: nat)
    requires i < |Children(S(t))|
    ensures StmtAbove(t, Children(S(t))[i])
  {
    if t.Switch? && 1 <= i < 1 + |CaseNodes(t.cases)| {
      CaseSmaller(t.cases, i - 1);
    } else if t.Struct? {
      assert Children(S(t))[i] == S(t.methods[i].body);
      assert t decreases to t.methods[i];
    }
  }
}
