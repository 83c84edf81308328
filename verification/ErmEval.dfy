/** The expression evaluator of templates (libs/erm/eval.rs:79-428): a recursive-descent parser that
    computes while it reads, and the proof that it reads back every printed expression. */
module ErmEval {
  import opened Options

  // A float is never taken apart; the host computes with it.
  type Float = int

  datatype Value =
    | Null
    | Boolean(b: bool)
    | Number(n: Float)
    | String(s: string)
    | Map(m: map<string, Value>)
    | List(l: seq<Value>)

  // Arithmetic and comparison of floats, reading and showing of values, and array and object literals.
  datatype Host = Host(
    add: (Float, Float) -> Float,
    subtract: (Float, Float) -> Float,
    multiply: (Float, Float) -> Float,
    divide: (Float, Float) -> Float,
    remainder: (Float, Float) -> Float,
    negate: Float -> Float,
    less: (Float, Float) -> bool,
    atMost: (Float, Float) -> bool,
    isZero: Float -> bool,
    zero: Float,
    one: Float,
    same: (Value, Value) -> bool,
    readFloat: string -> Option<Float>,
    stringFloat: string -> Float,
    showFloat: Float -> string,
    showCompound: Value -> string,
    literal: (string, map<string, Value>) -> Option<(Value, nat)>)

  datatype Parsed = Done(v: Value, rest: string) | Failed

  function ToBool(h: Host, v: Value): bool
  {
    match v
    case Null => false
    case Boolean(b) => b
    case Number(n) => !h.isZero(n)
    case String(s) => s != ""
    case Map(_) => true
    case List(_) => true
  }

  function ToNumber(h: Host, v: Value): Float
  {
    match v
    case Number(n) => n
    case Boolean(b) => if b then h.one else h.zero
    case String(s) => h.stringFloat(s)
    case _ => h.zero
  }

  // ---------------------------------------------------------------- what operators compute

  function Show(h: Host, v: Value): string
  {
    match v
    case Null => "null"
    case Boolean(b) => if b then "true" else "false"
    case Number(n) => h.showFloat(n)
    case String(s) => s
    case _ => h.showCompound(v)
  }

  // A zero divisor gives zero.
  function Arith(h: Host, op: char, l: Value, r: Value): Value
  {
    if op == '+' && l.String? then String(l.s + Show(h, r))
    else if op == '+' && r.String? then String(Show(h, l) + r.s)
    else
      var a, b := ToNumber(h, l), ToNumber(h, r);
      Number(
        if op == '+' then h.add(a, b)
        else if op == '-' then h.subtract(a, b)
        else if op == '*' then h.multiply(a, b)
        else if h.isZero(b) then h.zero
        else if op == '/' then h.divide(a, b)
        else h.remainder(a, b))
  }

  function Compare(h: Host, op: string, l: Value, r: Value): Value
  {
    var a, b := ToNumber(h, l), ToNumber(h, r);
    if op == ">" then Boolean(h.less(b, a))
    else if op == "<" then Boolean(h.less(a, b))
    else if op == ">=" then Boolean(h.atMost(b, a))
    else if op == "<=" then Boolean(h.atMost(a, b))
    else if op == "==" || op == "===" then Boolean(h.same(l, r))
    else if op == "!=" || op == "!==" then Boolean(!h.same(l, r))
    else l
  }

  function Or(h: Host, l: Value, r: Value): Value { if ToBool(h, l) then l else r }

  function And(h: Host, l: Value, r: Value): Value { if ToBool(h, l) then r else l }

  function Property(v: Value, prop: string): Value
  {
    if v.Map? && prop in v.m then v.m[prop] else Null
  }

  // erm.get unwraps a map's "value".
  function Unwrap(v: Value): Value
  {
    if v.Map? && "value" in v.m then v.m["value"] else v
  }

  // ---------------------------------------------------------------- characters

  predicate IsSpace(c: char) { c == ' ' || c == '\t' || c == '\n' || c == '\U{0C}' || c == '\r' }

  predicate IsDigit(c: char) { '0' <= c <= '9' }

  predicate IsAlpha(c: char) { 'a' <= c <= 'z' || 'A' <= c <= 'Z' }

  predicate IsNameStart(c: char) { IsAlpha(c) || c == '_' || c == '$' }

  predicate IsNameChar(c: char) { IsNameStart(c) || IsDigit(c) }

  predicate IsNumberChar(c: char) { IsDigit(c) || c == '.' }

  function Skip(s: string): (r: string)
    ensures |r| <= |s|
  {
    if s != "" && IsSpace(s[0]) then Skip(s[1..]) else s
  }

  // The longest prefix of characters of a kind, by its length.
  function NameLength(s: string): (n: nat)
    ensures n <= |s|
  {
    if s != "" && IsNameChar(s[0]) then 1 + NameLength(s[1..]) else 0
  }

  function NumberLength(s: string): (n: nat)
    ensures n <= |s|
  {
    if s != "" && IsNumberChar(s[0]) then 1 + NumberLength(s[1..]) else 0
  }

  predicate StartsWith(s: string, t: string)
  {
    |t| <= |s| && s[..|t|] == t
  }

  const COMPARISONS: seq<string> := ["===", "!==", "==", "!=", ">=", "<=", ">", "<"]

  // The first of the operators the text begins with.
  function FindOp(s: string, ops: seq<string>): (r: Option<string>)
    ensures r.Some? ==> r.value in ops && StartsWith(s, r.value)
  {
    if ops == [] then None else if StartsWith(s, ops[0]) then Some(ops[0]) else FindOp(s, ops[1..])
  }

  // ---------------------------------------------------------------- the grammar, as functions of the rest of the text

  function Path(v: Value, s: string): (r: Parsed)
    ensures r.Done? && |r.rest| <= |s|
    decreases |s|
  {
    if s != "" && s[0] == '.' then
      var n := NameLength(s[1..]);
      Path(Property(v, s[1..][..n]), s[1..][n..])
    else Done(v, s)
  }

  function AfterParen(s: string): (r: string)
    ensures |r| <= |s|
  {
    var k := Skip(s);
    if k != "" && k[0] == ')' then k[1..] else k
  }

  function Ternary(h: Host, vars: map<string, Value>, s: string): (r: Parsed)
    ensures r.Done? ==> |r.rest| <= |s|
    decreases |s|, 12
  {
    match OrExpr(h, vars, s)
    case Failed => Failed
    case Done(c, rest) =>
      var q := Skip(rest);
      if q != "" && q[0] == '?' then
        match Ternary(h, vars, q[1..])
        case Failed => Failed
        case Done(t, rest1) =>
          var k := Skip(rest1);
          if k != "" && k[0] == ':' then
            (match Ternary(h, vars, k[1..])
             case Failed => Failed
             case Done(f, rest2) => Done(if ToBool(h, c) then t else f, rest2))
          else Failed
      else Done(c, q)
  }

  function OrExpr(h: Host, vars: map<string, Value>, s: string): (r: Parsed)
    ensures r.Done? ==> |r.rest| <= |s|
    decreases |s|, 11
  {
    match AndExpr(h, vars, s)
    case Failed => Failed
    case Done(l, rest) => OrRest(h, vars, l, rest)
  }

  function OrRest(h: Host, vars: map<string, Value>, l: Value, s: string): (r: Parsed)
    ensures r.Done? ==> |r.rest| <= |s|
    decreases |s|, 10
  {
    var q := Skip(s);
    if StartsWith(q, "||") then
      match AndExpr(h, vars, q[2..])
      case Failed => Failed
      case Done(v, rest) => OrRest(h, vars, Or(h, l, v), rest)
    else Done(l, q)
  }

  function AndExpr(h: Host, vars: map<string, Value>, s: string): (r: Parsed)
    ensures r.Done? ==> |r.rest| <= |s|
    decreases |s|, 9
  {
    match CompareExpr(h, vars, s)
    case Failed => Failed
    case Done(l, rest) => AndRest(h, vars, l, rest)
  }

  function AndRest(h: Host, vars: map<string, Value>, l: Value, s: string): (r: Parsed)
    ensures r.Done? ==> |r.rest| <= |s|
    decreases |s|, 8
  {
    var q := Skip(s);
    if StartsWith(q, "&&") then
      match CompareExpr(h, vars, q[2..])
      case Failed => Failed
      case Done(v, rest) => AndRest(h, vars, And(h, l, v), rest)
    else Done(l, q)
  }

  // At most one comparison.
  function CompareExpr(h: Host, vars: map<string, Value>, s: string): (r: Parsed)
    ensures r.Done? ==> |r.rest| <= |s|
    decreases |s|, 7
  {
    match AddExpr(h, vars, s)
    case Failed => Failed
    case Done(l, rest) =>
      var q := Skip(rest);
      match FindOp(q, COMPARISONS)
      case None => Done(l, q)
      case Some(op) =>
        assert |op| > 0;
        match AddExpr(h, vars, q[|op|..])
        case Failed => Failed
        case Done(v, rest1) => Done(Compare(h, op, l, v), rest1)
  }

  function AddExpr(h: Host, vars: map<string, Value>, s: string): (r: Parsed)
    ensures r.Done? ==> |r.rest| <= |s|
    decreases |s|, 6
  {
    match MulExpr(h, vars, s)
    case Failed => Failed
    case Done(l, rest) => AddRest(h, vars, l, rest)
  }

  function AddRest(h: Host, vars: map<string, Value>, l: Value, s: string): (r: Parsed)
    ensures r.Done? ==> |r.rest| <= |s|
    decreases |s|, 5
  {
    var q := Skip(s);
    if q != "" && (q[0] == '+' || q[0] == '-') then
      match MulExpr(h, vars, q[1..])
      case Failed => Failed
      case Done(v, rest) => AddRest(h, vars, Arith(h, q[0], l, v), rest)
    else Done(l, q)
  }

  function MulExpr(h: Host, vars: map<string, Value>, s: string): (r: Parsed)
    ensures r.Done? ==> |r.rest| <= |s|
    decreases |s|, 4
  {
    match UnaryExpr(h, vars, s)
    case Failed => Failed
    case Done(l, rest) => MulRest(h, vars, l, rest)
  }

  function MulRest(h: Host, vars: map<string, Value>, l: Value, s: string): (r: Parsed)
    ensures r.Done? ==> |r.rest| <= |s|
    decreases |s|, 3
  {
    var q := Skip(s);
    if q != "" && (q[0] == '*' || q[0] == '/' || q[0] == '%') then
      match UnaryExpr(h, vars, q[1..])
      case Failed => Failed
      case Done(v, rest) => MulRest(h, vars, Arith(h, q[0], l, v), rest)
    else Done(l, q)
  }

  function UnaryExpr(h: Host, vars: map<string, Value>, s: string): (r: Parsed)
    ensures r.Done? ==> |r.rest| <= |s|
    decreases |s|, 2
  {
    var q := Skip(s);
    if q != "" && q[0] == '!' then
      match UnaryExpr(h, vars, q[1..])
      case Failed => Failed
      case Done(v, rest) => Done(Boolean(!ToBool(h, v)), rest)
    else if q != "" && q[0] == '-' then
      match UnaryExpr(h, vars, q[1..])
      case Failed => Failed
      case Done(v, rest) => Done(Number(h.negate(ToNumber(h, v))), rest)
    else Primary(h, vars, q)
  }

  function Primary(h: Host, vars: map<string, Value>, s: string): (r: Parsed)
    ensures r.Done? ==> |r.rest| <= |s|
    decreases |s|, 1
  {
    var q := Skip(s);
    if q == "" then Failed
    else
      var c := q[0];
      if c == '(' then
        match Ternary(h, vars, q[1..])
        case Failed => Failed
        case Done(v, rest) => Done(v, AfterParen(rest))
      else if c == '[' || c == '{' then
        match h.literal(q, vars)
        case Some((v, n)) => if n <= |q| then Done(v, q[n..]) else Failed
        case None => Failed
      else if IsNumberChar(c) then
        var n := NumberLength(q);
        match h.readFloat(q[..n])
        case Some(f) => Done(Number(f), q[n..])
        case None => Failed
      else if c == '"' || c == '\'' || c == '`' then Quoted(c, "", q[1..])
      else if IsNameStart(c) then
        var n := NameLength(q);
        Named(h, vars, q[..n], q[n..], s)
      else Failed
  }

  function Unescape(c: char): char
  {
    if c == 'n' then '\n' else if c == 't' then '\t' else if c == 'r' then '\r' else c
  }

  // The characters of a string literal up to its quote.
  function Quoted(quote: char, acc: string, s: string): (r: Parsed)
    ensures r.Done? ==> |r.rest| <= |s|
    decreases |s|
  {
    if s == "" then Done(String(acc), s)
    else if s[0] == quote then Done(String(acc), s[1..])
    else if s[0] == '\\' && |s| > 1 then Quoted(quote, acc + [Unescape(s[1])], s[2..])
    else Quoted(quote, acc + [s[0]], s[1..])
  }

  // What a name stands for: a constant, erm.get of an expression, or a variable, with its path.
  function Named(h: Host, vars: map<string, Value>, name: string, s: string, ghost whole: string): (r: Parsed)
    requires |s| < |whole|
    ensures r.Done? ==> |r.rest| <= |s|
    decreases |whole|, 0
  {
    if name == "true" then Done(Boolean(true), s)
    else if name == "false" then Done(Boolean(false), s)
    else if name == "null" || name == "undefined" then Done(Null, s)
    else if name == "erm" && StartsWith(s, ".get(") then
      match Ternary(h, vars, s[5..])
      case Failed => Failed
      case Done(v, rest) => Path(Unwrap(v), AfterParen(rest))
    else Path(if name in vars then vars[name] else Null, s)
  }

  // The whole text must be read.
  function EvalText(h: Host, vars: map<string, Value>, s: string): Option<Value>
  {
    match Ternary(h, vars, s)
    case Failed => None
    case Done(v, rest) => if Skip(rest) == "" then Some(v) else None
  }

  // ---------------------------------------------------------------- expressions and their text

  // A character of a string literal, as it is or behind a backslash.
  datatype Piece = Raw(c: char) | Escaped(c: char)

  datatype Tree =
    | Num(text: string)
    | Str(quote: char, pieces: seq<Piece>)
    | Bool(b: bool)
    | NullLit(undefined: bool)
    | Name(name: string, path: seq<string>)
    | Get(t: Tree, path: seq<string>)
    | Not(t: Tree)
    | Neg(t: Tree)
    | Binary(op: string, l: Tree, r: Tree)
    | Cond(c: Tree, t: Tree, f: Tree)

  // How tightly an operator binds: || 1, && 2, comparisons 3, + and - 4, * / and % 5.
  function OpLevel(op: string): (n: nat)
    ensures 1 <= n <= 5
  {
    if op == "||" then 1 else if op == "&&" then 2 else if op in COMPARISONS then 3
    else if op == "+" || op == "-" then 4 else 5
  }

  predicate IsOp(op: string)
  {
    op in ["||", "&&", "+", "-", "*", "/", "%"] || op in COMPARISONS
  }

  function Level(t: Tree): (n: nat)
    ensures n <= 7
  {
    match t
    case Cond(_, _, _) => 0
    case Binary(op, _, _) => OpLevel(op)
    case Not(_) => 6
    case Neg(_) => 6
    case _ => 7
  }

  predicate IsWord(s: string)
  {
    forall i :: 0 <= i < |s| ==>
      'a' <= s[i] <= 'z' || 'A' <= s[i] <= 'Z' || '0' <= s[i] <= '9' || s[i] == '_' || s[i] == '$'
  }

  predicate IsName(s: string)
  {
    s != "" && !('0' <= s[0] <= '9') && IsWord(s)
  }

  predicate IsNumeral(s: string)
  {
    s != "" && forall i :: 0 <= i < |s| ==> '0' <= s[i] <= '9' || s[i] == '.'
  }

  // The quote and the backslash need a backslash.
  predicate Quotable(quote: char, pieces: seq<Piece>)
  {
    && (quote == '"' || quote == '\'' || quote == '`')
    && forall i :: 0 <= i < |pieces| && pieces[i].Raw? ==> pieces[i].c != quote && pieces[i].c != '\\'
  }

  predicate IsReserved(s: string) { s in ["true", "false", "null", "undefined"] }

  ghost predicate Proper(h: Host, t: Tree)
  {
    match t
    case Num(text) => IsNumeral(text) && h.readFloat(text).Some?
    case Str(quote, pieces) => Quotable(quote, pieces)
    case Bool(_) => true
    case NullLit(_) => true
    case Name(name, path) => IsName(name) && !IsReserved(name) && forall i :: 0 <= i < |path| ==> IsWord(path[i])
    case Get(x, path) => Proper(h, x) && forall i :: 0 <= i < |path| ==> IsWord(path[i])
    case Not(x) => Proper(h, x)
    case Neg(x) => Proper(h, x)
    case Binary(op, l, r) => IsOp(op) && Proper(h, l) && Proper(h, r)
    case Cond(c, x, f) => Proper(h, c) && Proper(h, x) && Proper(h, f)
  }

  function Follow(v: Value, path: seq<string>): Value
    decreases |path|
  {
    if path == [] then v else Follow(Property(v, path[0]), path[1..])
  }

  function Combine(h: Host, op: string, l: Value, r: Value): Value
  {
    if op == "||" then Or(h, l, r) else if op == "&&" then And(h, l, r)
    else if op in COMPARISONS then Compare(h, op, l, r)
    else if op == "" then Null else Arith(h, op[0], l, r)
  }

  function Chars(pieces: seq<Piece>): string
  {
    if pieces == [] then ""
    else [if pieces[0].Raw? then pieces[0].c else Unescape(pieces[0].c)] + Chars(pieces[1..])
  }

  // What the parser computes for an expression.
  function Denote(h: Host, vars: map<string, Value>, t: Tree): Value
    requires Proper(h, t)
  {
    match t
    case Num(text) => Number(h.readFloat(text).value)
    case Str(_, pieces) => String(Chars(pieces))
    case Bool(b) => Boolean(b)
    case NullLit(_) => Null
    case Name(name, path) => Follow(if name in vars then vars[name] else Null, path)
    case Get(x, path) => Follow(Unwrap(Denote(h, vars, x)), path)
    case Not(x) => Boolean(!ToBool(h, Denote(h, vars, x)))
    case Neg(x) => Number(h.negate(ToNumber(h, Denote(h, vars, x))))
    case Binary(op, l, r) => Combine(h, op, Denote(h, vars, l), Denote(h, vars, r))
    case Cond(c, x, f) => if ToBool(h, Denote(h, vars, c)) then Denote(h, vars, x) else Denote(h, vars, f)
  }

  function PiecesText(pieces: seq<Piece>): string
  {
    if pieces == [] then ""
    else (if pieces[0].Raw? then [pieces[0].c] else ['\\', pieces[0].c]) + PiecesText(pieces[1..])
  }

  function PathText(path: seq<string>): string
    decreases |path|
  {
    if path == [] then "" else "." + path[0] + PathText(path[1..])
  }

  // The text of an expression where an operand of the given level is expected; w is the space put
  // between tokens.
  function Print(t: Tree, level: nat, w: string): string
    decreases t, if Level(t) < level then 1 else 0
  {
    if Level(t) < level then "(" + w + Print(t, 0, w) + w + ")"
    else
      match t
      case Num(text) => text
      case Str(quote, pieces) => [quote] + PiecesText(pieces) + [quote]
      case Bool(b) => if b then "true" else "false"
      case NullLit(undefined) => if undefined then "undefined" else "null"
      case Name(name, path) => name + PathText(path)
      case Get(x, path) => "erm.get(" + w + Print(x, 0, w) + w + ")" + PathText(path)
      case Not(x) => "!" + w + Print(x, 6, w)
      case Neg(x) => "-" + w + Print(x, 6, w)
      case Binary(op, l, r) =>
        Print(l, if OpLevel(op) == 3 then 4 else OpLevel(op), w) + w + op + w + Print(r, OpLevel(op) + 1, w)
      case Cond(c, x, f) => Print(c, 1, w) + w + "?" + w + Print(x, 0, w) + w + ":" + w + Print(f, 0, w)
  }

  // ---------------------------------------------------------------- what may follow an expression

  predicate AllSpace(w: string)
  {
    forall i :: 0 <= i < |w| ==> w[i] in " \t\n\U{0C}\r"
  }

  // The text does not go on with what would belong to the last name or number.
  predicate Breaks(rest: string)
  {
    rest == "" || !(IsNameChar(rest[0]) || rest[0] == '.' || rest[0] == '(')
  }

  // The level of the operator a text begins with; -1 when it begins with none.
  function NextLevel(q: string): int
  {
    if q == "" then -1
    else if q[0] == '*' || q[0] == '/' || q[0] == '%' then 5
    else if q[0] == '+' || q[0] == '-' then 4
    else if q[0] == '=' || q[0] == '!' || q[0] == '<' || q[0] == '>' then 3
    else if q[0] == '&' then 2
    else if q[0] == '|' then 1
    else if q[0] == '?' then 0
    else -1
  }

  predicate Follows(rest: string, level: int)
  {
    Breaks(rest) && NextLevel(Skip(rest)) <= level
  }

  lemma {:induction false} SkipSpaces(w: string, s: string)
    requires AllSpace(w)
    ensures Skip(w + s) == Skip(s)
    decreases |w|
  {
    if w == "" {
      assert w + s == s;
    } else {
      assert (w + s)[0] == w[0] && (w + s)[1..] == w[1..] + s;
      SkipSpaces(w[1..], s);
    }
  }

  lemma {:induction false} SkipTwice(s: string)
    ensures Skip(Skip(s)) == Skip(s)
    ensures Skip(s) != "" ==> !IsSpace(Skip(s)[0])
    decreases |s|
  {
    if s != "" && IsSpace(s[0]) {
      SkipTwice(s[1..]);
    }
  }

  lemma SpaceBeforeUnary(h: Host, vars: map<string, Value>, w: string, s: string)
    requires AllSpace(w)
    ensures UnaryExpr(h, vars, w + s) == UnaryExpr(h, vars, s)
  {
    hide Primary;
    SkipSpaces(w, s);
  }

  // Every level begins with the one below it.
  lemma SameFirst(h: Host, vars: map<string, Value>, s: string, t: string)
    requires UnaryExpr(h, vars, s) == UnaryExpr(h, vars, t)
    ensures MulExpr(h, vars, s) == MulExpr(h, vars, t) && AddExpr(h, vars, s) == AddExpr(h, vars, t)
    ensures CompareExpr(h, vars, s) == CompareExpr(h, vars, t) && AndExpr(h, vars, s) == AndExpr(h, vars, t)
    ensures OrExpr(h, vars, s) == OrExpr(h, vars, t) && Ternary(h, vars, s) == Ternary(h, vars, t)
  {
    hide UnaryExpr, Primary, MulRest, AddRest, AndRest, OrRest;
    assert MulExpr(h, vars, s) == MulExpr(h, vars, t);
    hide MulExpr;
    assert AddExpr(h, vars, s) == AddExpr(h, vars, t);
    hide AddExpr;
    assert CompareExpr(h, vars, s) == CompareExpr(h, vars, t);
    hide CompareExpr;
    assert AndExpr(h, vars, s) == AndExpr(h, vars, t);
    hide AndExpr;
    assert OrExpr(h, vars, s) == OrExpr(h, vars, t);
  }

  // Every level of the grammar begins by skipping space.
  lemma SpaceBefore(h: Host, vars: map<string, Value>, w: string, s: string)
    requires AllSpace(w)
    ensures UnaryExpr(h, vars, w + s) == UnaryExpr(h, vars, s)
    ensures MulExpr(h, vars, w + s) == MulExpr(h, vars, s) && AddExpr(h, vars, w + s) == AddExpr(h, vars, s)
    ensures CompareExpr(h, vars, w + s) == CompareExpr(h, vars, s) && AndExpr(h, vars, w + s) == AndExpr(h, vars, s)
    ensures OrExpr(h, vars, w + s) == OrExpr(h, vars, s) && Ternary(h, vars, w + s) == Ternary(h, vars, s)
  {
    SpaceBeforeUnary(h, vars, w, s);
    SameFirst(h, vars, w + s, s);
  }

  lemma RestSkipped(h: Host, vars: map<string, Value>, v: Value, s: string)
    ensures MulRest(h, vars, v, Skip(s)) == MulRest(h, vars, v, s)
      && AddRest(h, vars, v, Skip(s)) == AddRest(h, vars, v, s)
    ensures AndRest(h, vars, v, Skip(s)) == AndRest(h, vars, v, s)
      && OrRest(h, vars, v, Skip(s)) == OrRest(h, vars, v, s)
  {
    hide UnaryExpr, MulExpr, CompareExpr, AndExpr;
    SkipTwice(s);
  }

  lemma FirstOf(q: string, op: string)
    ensures op != "" && StartsWith(q, op) ==> q != "" && q[0] == op[0]
  {
    if op != "" && StartsWith(q, op) {
      assert q[..|op|][0] == q[0];
    }
  }

  lemma {:induction false} NoneFound(q: string, ops: seq<string>)
    requires forall op :: op in ops ==> !StartsWith(q, op)
    ensures FindOp(q, ops) == None
    decreases |ops|
  {
    if ops != [] {
      assert ops[0] in ops;
      NoneFound(q, ops[1..]);
    }
  }

  lemma NoComparison(q: string)
    requires NextLevel(q) != 3
    ensures FindOp(q, COMPARISONS) == None
  {
    forall op | op in COMPARISONS ensures !StartsWith(q, op) {
      assert op[0] == '=' || op[0] == '!' || op[0] == '<' || op[0] == '>';
      FirstOf(q, op);
    }
    NoneFound(q, COMPARISONS);
  }

  // Where a loop stops.
  lemma LoopsEnd(h: Host, vars: map<string, Value>, v: Value, rest: string)
    ensures NextLevel(Skip(rest)) < 5 ==> MulRest(h, vars, v, rest) == Done(v, Skip(rest))
    ensures NextLevel(Skip(rest)) < 4 ==> AddRest(h, vars, v, rest) == Done(v, Skip(rest))
    ensures NextLevel(Skip(rest)) < 2 ==> AndRest(h, vars, v, rest) == Done(v, Skip(rest))
    ensures NextLevel(Skip(rest)) < 1 ==> OrRest(h, vars, v, rest) == Done(v, Skip(rest))
  {
    hide UnaryExpr, MulExpr, CompareExpr, AndExpr;
    var q := Skip(rest);
    FirstOf(q, "&&");
    FirstOf(q, "||");
  }

  lemma OpStarts(op: string)
    requires IsOp(op)
    ensures op != "" && !IsSpace(op[0]) && !IsNameChar(op[0]) && op[0] != '.' && op[0] != '('
      && NextLevel(op) == OpLevel(op) == NextLevel([op[0]])
  {
    if op in COMPARISONS {
      assert op[0] == '=' || op[0] == '!' || op[0] == '<' || op[0] == '>';
    }
  }

  // Space, and then what does not go on with a name or number.
  lemma SpacedFollows(w: string, k: string, level: int)
    requires AllSpace(w) && k != "" && !IsSpace(k[0]) && Breaks(k) && NextLevel(k) <= level
    ensures Follows(w + k, level) && Skip(w + k) == k
  {
    SkipSpaces(w, k);
    assert Skip(k) == k;
    assert (w + k)[0] == if w == "" then k[0] else w[0];
  }

  // The operator of a binary expression, spaced, in front of more text.
  lemma Spaced(w: string, op: string, s: string)
    requires AllSpace(w) && IsOp(op)
    ensures Skip(w + op + w + s) == op + w + s && Follows(w + op + w + s, OpLevel(op))
    ensures NextLevel(op + w + s) == OpLevel(op)
  {
    OpStarts(op);
    var tail := op + (w + s);
    assert w + op + w + s == w + tail && op + w + s == tail;
    assert tail[0] == op[0];
    SpacedFollows(w, tail, OpLevel(op));
  }

  // ---------------------------------------------------------------- reading atoms back

  lemma {:induction false} NameRead(name: string, rest: string)
    requires (forall i :: 0 <= i < |name| ==> IsNameChar(name[i])) && (rest == "" || !IsNameChar(rest[0]))
    ensures NameLength(name + rest) == |name|
    decreases |name|
  {
    if name == "" {
      assert name + rest == rest;
    } else {
      assert (name + rest)[0] == name[0] && (name + rest)[1..] == name[1..] + rest;
      NameRead(name[1..], rest);
    }
  }

  lemma {:induction false} NumberRead(text: string, rest: string)
    requires (forall i :: 0 <= i < |text| ==> IsNumberChar(text[i])) && (rest == "" || !IsNumberChar(rest[0]))
    ensures NumberLength(text + rest) == |text|
    decreases |text|
  {
    if text == "" {
      assert text + rest == rest;
    } else {
      assert (text + rest)[0] == text[0] && (text + rest)[1..] == text[1..] + rest;
      NumberRead(text[1..], rest);
    }
  }

  // What can stand behind a name: neither more of the name nor a parenthesis.
  predicate EndsName(s: string)
  {
    s == "" || !(IsNameChar(s[0]) || s[0] == '(')
  }

  lemma PathEndsName(path: seq<string>, rest: string)
    requires Breaks(rest)
    ensures EndsName(PathText(path) + rest)
  {
    if path == [] {
      assert PathText(path) + rest == rest;
    } else {
      assert (PathText(path) + rest)[0] == '.';
    }
  }

  lemma PathStep(v: Value, p: string, more: string)
    requires IsWord(p) && EndsName(more)
    ensures Path(v, "." + (p + more)) == Path(Property(v, p), more)
  {
    hide Property;
    var s := "." + (p + more);
    assert s[0] == '.' && s[1..] == p + more;
    NameRead(p, more);
    assert (p + more)[..|p|] == p && (p + more)[|p|..] == more;
  }

  lemma {:induction false} PathRead(v: Value, path: seq<string>, rest: string)
    requires (forall i :: 0 <= i < |path| ==> IsWord(path[i])) && Breaks(rest)
    ensures Path(v, PathText(path) + rest) == Done(Follow(v, path), rest)
    decreases |path|
  {
    hide IsWord, Property;
    if path == [] {
      assert PathText(path) + rest == rest;
    } else {
      var more := PathText(path[1..]) + rest;
      assert PathText(path) + rest == "." + (path[0] + more);
      PathEndsName(path[1..], rest);
      PathStep(v, path[0], more);
      PathRead(Property(v, path[0]), path[1..], rest);
    }
  }

  lemma {:induction false} QuotedRead(quote: char, acc: string, pieces: seq<Piece>, rest: string)
    requires Quotable(quote, pieces)
    ensures Quoted(quote, acc, PiecesText(pieces) + ([quote] + rest)) == Done(String(acc + Chars(pieces)), rest)
    decreases |pieces|
  {
    hide Unescape;
    var tail := [quote] + rest;
    var text := PiecesText(pieces) + tail;
    if pieces == [] {
      assert text == tail && tail[0] == quote && tail[1..] == rest && acc + Chars(pieces) == acc;
    } else {
      var p := pieces[0];
      var c := if p.Raw? then p.c else Unescape(p.c);
      var more := PiecesText(pieces[1..]) + tail;
      assert text == (if p.Raw? then [p.c] else ['\\', p.c]) + more;
      assert text[0] == (if p.Raw? then p.c else '\\') && text[if p.Raw? then 1 else 2..] == more;
      QuotedRead(quote, acc + [c], pieces[1..], rest);
      assert acc + [c] + Chars(pieces[1..]) == acc + Chars(pieces);
    }
  }

  predicate IsAtom(t: Tree) { t.Num? || t.Str? || t.Bool? || t.NullLit? || t.Name? }

  lemma WordRead(h: Host, vars: map<string, Value>, name: string, rest: string)
    requires IsName(name) && (rest == "" || !IsNameChar(rest[0]))
    ensures UnaryExpr(h, vars, name + rest) == Named(h, vars, name, rest, name + rest)
  {
    hide Named, Ternary, Quoted;
    var s := name + rest;
    assert s[0] == name[0] && Skip(s) == s;
    NameRead(name, rest);
    assert s[..|name|] == name && s[|name|..] == rest;
  }

  lemma NumRead(h: Host, vars: map<string, Value>, text: string, rest: string)
    requires Proper(h, Num(text)) && Breaks(rest)
    ensures UnaryExpr(h, vars, text + rest) == Done(Number(h.readFloat(text).value), rest)
  {
    hide Ternary, Quoted, Named;
    var s := text + rest;
    assert s[0] == text[0] && Skip(s) == s;
    NumberRead(text, rest);
    assert s[..|text|] == text && s[|text|..] == rest;
  }

  lemma StrRead(h: Host, vars: map<string, Value>, quote: char, pieces: seq<Piece>, rest: string)
    requires Quotable(quote, pieces)
    ensures UnaryExpr(h, vars, [quote] + PiecesText(pieces) + [quote] + rest) == Done(String(Chars(pieces)), rest)
  {
    hide Ternary, Named, PiecesText, Chars;
    var s := [quote] + PiecesText(pieces) + [quote] + rest;
    assert s[0] == quote && Skip(s) == s;
    assert s[1..] == PiecesText(pieces) + ([quote] + rest);
    QuotedRead(quote, "", pieces, rest);
    assert "" + Chars(pieces) == Chars(pieces);
  }

  lemma PathCons(path: seq<string>, rest: string)
    ensures path == [] ==> PathText(path) + rest == rest
    ensures path != [] ==> PathText(path) + rest == "." + (path[0] + (PathText(path[1..]) + rest))
  {
  }

  lemma NotDot(rest: string)
    requires rest == "" || rest[0] != '.'
    ensures !StartsWith(rest, ".get(")
  {
    FirstOf(rest, ".get(");
  }

  lemma GetCallChars(s: string)
    ensures StartsWith(s, ".get(") ==> |s| >= 5 && s[1] == 'g' && s[2] == 'e' && s[3] == 't' && s[4] == '('
  {
    var t := ".get(";
    if StartsWith(s, t) {
      assert forall i :: 0 <= i < 5 ==> s[..5][i] == s[i];
      assert t[1] == 'g' && t[2] == 'e' && t[3] == 't' && t[4] == '(';
    }
  }

  // A path that begins with get is not followed by a parenthesis.
  lemma NotGetCall(p: string, more: string)
    requires IsWord(p) && EndsName(more)
    ensures !StartsWith("." + (p + more), ".get(")
  {
    var s := "." + (p + more);
    GetCallChars(s);
    assert forall i :: 0 <= i < |p| ==> s[i + 1] == p[i];
    if more != "" {
      assert s[|p| + 1] == more[0];
    }
    if |p| >= 4 {
      assert s[4] == p[3];
    }
  }

  lemma PathStarts(path: seq<string>, rest: string)
    requires (forall i :: 0 <= i < |path| ==> IsWord(path[i])) && Breaks(rest)
    ensures !StartsWith(PathText(path) + rest, ".get(")
  {
    hide StartsWith, IsWord, IsNameChar, PathText;
    PathCons(path, rest);
    if path == [] {
      NotDot(rest);
    } else {
      PathEndsName(path[1..], rest);
      NotGetCall(path[0], PathText(path[1..]) + rest);
    }
  }

  lemma NamedRead(h: Host, vars: map<string, Value>, name: string, path: seq<string>, rest: string)
    requires Proper(h, Name(name, path)) && Breaks(rest)
    ensures UnaryExpr(h, vars, name + PathText(path) + rest) == Done(Denote(h, vars, Name(name, path)), rest)
  {
    hide Ternary, UnaryExpr, PathText, Path, Follow;
    var more := PathText(path) + rest;
    assert name + PathText(path) + rest == name + more;
    PathEndsName(path, rest);
    PathStarts(path, rest);
    WordRead(h, vars, name, more);
    PathRead(if name in vars then vars[name] else Null, path, rest);
  }

  // A printed literal or name is read back, and nothing more.
  lemma AtomRead(h: Host, vars: map<string, Value>, t: Tree, level: nat, w: string, rest: string)
    requires IsAtom(t) && Proper(h, t) && Breaks(rest) && level <= 7
    ensures UnaryExpr(h, vars, Print(t, level, w) + rest) == Done(Denote(h, vars, t), rest)
  {
    hide Ternary, UnaryExpr, PiecesText, Chars, PathText, Path, Follow;
    match t {
      case Num(text) => NumRead(h, vars, text, rest);
      case Str(quote, pieces) => StrRead(h, vars, quote, pieces, rest);
      case Bool(b) => WordRead(h, vars, if b then "true" else "false", rest);
      case NullLit(undefined) => WordRead(h, vars, if undefined then "undefined" else "null", rest);
      case Name(name, path) => NamedRead(h, vars, name, path, rest);
    }
  }

  // ---------------------------------------------------------------- reading expressions back

  // Where an induction over an expression and the level it is read at stands: parentheses come
  // first, then the levels from the loosest.
  function Stage(t: Tree, level: nat): nat
    requires level <= 7
  {
    (if Level(t) < level then 100 else 0) + 7 - level
  }

  // A level that is not the expression's own prints it as the next level does.
  lemma PrintNext(t: Tree, level: nat, w: string)
    requires Level(t) != level
    ensures Print(t, level, w) == Print(t, level + 1, w)
  {
  }

  lemma PrefixText(t: Tree, w: string, rest: string)
    requires t.Not? || t.Neg?
    ensures Print(t, 6, w) + rest == [if t.Not? then '!' else '-'] + (w + (Print(t.t, 6, w) + rest))
  {
    var x := Print(t.t, 6, w);
    var c := [if t.Not? then '!' else '-'];
    assert Print(t, 6, w) == c + w + x;
    hide Print;
    assert c + w + x + rest == c + (w + (x + rest));
  }

  lemma PrefixRead(h: Host, vars: map<string, Value>, c: char, s: string, v: Value, rest: string)
    requires (c == '!' || c == '-') && UnaryExpr(h, vars, s) == Done(v, rest)
    ensures UnaryExpr(h, vars, [c] + s)
      == Done(if c == '!' then Boolean(!ToBool(h, v)) else Number(h.negate(ToNumber(h, v))), rest)
  {
    hide Primary, ToBool, ToNumber;
    var q := [c] + s;
    assert q[0] == c && q[1..] == s && Skip(q) == q;
  }

  lemma Regroup(a: string, w: string, op: string, b: string, rest: string)
    ensures a + w + op + w + b + rest == a + (w + op + w + (b + rest))
    ensures w + op + w + (b + rest) == w + (op + (w + (b + rest)))
  {
  }

  // The text of a binary expression, with what follows.
  lemma BinaryText(t: Tree, w: string, rest: string)
    requires t.Binary? && IsOp(t.op)
    ensures
      var k := OpLevel(t.op);
      var right := w + t.op + w + (Print(t.r, k + 1, w) + rest);
      && Print(t, k, w) + rest == Print(t.l, if k == 3 then 4 else k, w) + right
      && right == w + (t.op + (w + (Print(t.r, k + 1, w) + rest)))
  {
    hide OpLevel;
    var k := OpLevel(t.op);
    assert Level(t) == k;
    var left := Print(t.l, if k == 3 then 4 else k, w);
    var r := Print(t.r, k + 1, w);
    assert Print(t, k, w) == left + w + t.op + w + r;
    hide Print, IsOp;
    Regroup(left, w, t.op, r, rest);
  }

  // The text after an operator.
  lemma AfterOp(w: string, op: string, s: string)
    requires AllSpace(w) && IsOp(op)
    ensures
      var q := Skip(w + (op + (w + s)));
      q == op + (w + s) && q[|op|..] == w + s && StartsWith(q, op) && q[0] == op[0]
    ensures Follows(w + (op + (w + s)), OpLevel(op))
  {
    hide IsOp, OpLevel;
    Spaced(w, op, s);
    OpStarts(op);
    var q := op + (w + s);
    assert w + op + w + s == w + (op + (w + s)) && op + w + s == q;
  }

  // The operators of one character are those of the two arithmetic levels.
  lemma OneChar(op: string)
    requires IsOp(op)
    ensures OpLevel(op) == 5 ==> |op| == 1 && op[0] in ['*', '/', '%']
    ensures OpLevel(op) == 4 ==> |op| == 1 && op[0] in ['+', '-']
    ensures OpLevel(op) == 3 <==> op in COMPARISONS
    ensures OpLevel(op) == 2 <==> op == "&&"
    ensures OpLevel(op) == 1 <==> op == "||"
    ensures OpLevel(op) >= 4 ==> forall h, l, r :: Combine(h, op, l, r) == Arith(h, op[0], l, r)
  {
  }

  // No expression's text begins with a space or an equals sign.
  lemma {:induction false} PrintStarts(h: Host, t: Tree, level: nat, w: string)
    requires Proper(h, t)
    ensures Print(t, level, w) != "" && Print(t, level, w)[0] != '='
    decreases t
  {
    if Level(t) >= level {
      match t {
        case Binary(op, l, r) => PrintStarts(h, l, if OpLevel(op) == 3 then 4 else OpLevel(op), w);
        case Cond(c, _, _) => PrintStarts(h, c, 1, w);
        case _ =>
      }
    }
  }

  lemma LaterChars(o: string)
    requires o in COMPARISONS
    ensures 1 <= |o| <= 3 && forall i :: 1 <= i < |o| ==> o[i] == '='
  {
  }

  lemma CharOf(q: string, o: string, k: nat)
    ensures StartsWith(q, o) && k < |o| ==> k < |q| && q[k] == o[k]
  {
    if StartsWith(q, o) && k < |o| {
      assert q[..|o|][k] == q[k];
    }
  }

  // Only beginnings of the operator printed fit.
  lemma CompareChars(q: string, op: string)
    requires op in COMPARISONS && StartsWith(q, op) && (|q| > |op| ==> q[|op|] != '=')
    ensures forall o :: o in COMPARISONS && StartsWith(q, o) ==> |o| <= |op| && o == op[..|o|]
  {
    forall o | o in COMPARISONS && StartsWith(q, o) ensures |o| <= |op| && o == op[..|o|] {
      LaterChars(o);
      CharOf(q, o, |op|);
      assert q[..|op|][..|o|] == q[..|o|];
    }
  }

  lemma Shapes(i: nat)
    requires i < |COMPARISONS|
    ensures |COMPARISONS[i]| == [3, 3, 2, 2, 2, 2, 1, 1][i]
    ensures COMPARISONS[i][0] == ['=', '!', '=', '!', '>', '<', '>', '<'][i]
  {
  }

  // No operator comes after one of its beginnings.
  lemma LongerFirst(i: nat, j: nat)
    requires j < i < |COMPARISONS|
    ensures |COMPARISONS[j]| > |COMPARISONS[i]| || COMPARISONS[j] != COMPARISONS[i][..|COMPARISONS[j]|]
  {
    Shapes(i);
    Shapes(j);
    assert |COMPARISONS[j]| <= |COMPARISONS[i]| ==> COMPARISONS[i][..|COMPARISONS[j]|][0] == COMPARISONS[i][0];
  }

  lemma {:induction false} FindAt(q: string, ops: seq<string>, i: nat)
    requires i < |ops| && StartsWith(q, ops[i]) && forall j :: 0 <= j < i ==> !StartsWith(q, ops[j])
    ensures FindOp(q, ops) == Some(ops[i])
    decreases i
  {
    if i > 0 {
      FindAt(q, ops[1..], i - 1);
    }
  }

  lemma FindFirst(q: string, op: string)
    requires op in COMPARISONS && StartsWith(q, op)
    requires forall o :: o in COMPARISONS && StartsWith(q, o) ==> |o| <= |op| && o == op[..|o|]
    ensures FindOp(q, COMPARISONS) == Some(op)
  {
    hide StartsWith;
    var i :| 0 <= i < |COMPARISONS| && COMPARISONS[i] == op;
    forall j | 0 <= j < i ensures !StartsWith(q, COMPARISONS[j]) {
      assert COMPARISONS[j] in COMPARISONS;
      LongerFirst(i, j);
    }
    FindAt(q, COMPARISONS, i);
  }

  // The operator found is the one printed: no longer one fits.
  lemma OpFound(op: string, w: string, s: string)
    requires op in COMPARISONS && AllSpace(w) && (s != "" ==> s[0] != '=')
    ensures FindOp(op + (w + s), COMPARISONS) == Some(op)
  {
    var q := op + (w + s);
    if w + s != "" {
      assert (w + s)[0] != '=' by {
        if w != "" { assert (w + s)[0] == w[0]; } else { assert w + s == s; }
      }
      assert q[|op|] == (w + s)[0];
    }
    CompareChars(q, op);
    FindFirst(q, op);
  }

  lemma OrDenotes(h: Host, vars: map<string, Value>, t: Tree)
    requires Proper(h, t) && Level(t) == 1
    ensures t.Binary? && IsOp(t.op) && t.op == "||" && Proper(h, t.l) && Proper(h, t.r)
    ensures Denote(h, vars, t) == Or(h, Denote(h, vars, t.l), Denote(h, vars, t.r))
  {
    OneChar(t.op);
    hide Or;
  }

  lemma OrContinues(h: Host, vars: map<string, Value>, l: Value, s: string, r: Value, rest: string)
    requires StartsWith(Skip(s), "||") && AndExpr(h, vars, Skip(s)[2..]) == Done(r, rest)
    ensures OrRest(h, vars, l, s) == OrRest(h, vars, Or(h, l, r), rest)
  {
    hide AndExpr, Skip, StartsWith, Or;
  }

  lemma CondText(t: Tree, w: string, rest: string)
    requires t.Cond?
    ensures
      var third := Print(t.f, 0, w) + rest;
      var second := Print(t.t, 0, w) + (w + (":" + (w + third)));
      Print(t, 0, w) + rest == Print(t.c, 1, w) + (w + ("?" + (w + second)))
  {
    var a, b, c := Print(t.c, 1, w), Print(t.t, 0, w), Print(t.f, 0, w);
    assert Print(t, 0, w) == a + w + "?" + w + b + w + ":" + w + c;
    hide Print;
    assert a + w + "?" + w + b + w + ":" + w + c + rest == a + (w + ("?" + (w + (b + (w + (":" + (w + (c + rest))))))));
  }

  lemma MarkFollows(w: string, mark: char, s: string)
    requires AllSpace(w) && (mark == '?' || mark == ':')
    ensures var q := Skip(w + ([mark] + s)); q == [mark] + s && q[0] == mark && q[1..] == s
    ensures Follows(w + ([mark] + s), if mark == '?' then 0 else -1)
  {
    var k := [mark] + s;
    assert k[0] == mark && k[1..] == s;
    SpacedFollows(w, k, if mark == '?' then 0 else -1);
  }

  lemma ParenText(t: Tree, w: string, rest: string)
    requires Level(t) < 6
    ensures Print(t, 6, w) + rest == "(" + (w + (Print(t, 0, w) + (w + (")" + rest))))
  {
    var inner := Print(t, 0, w);
    assert Print(t, 6, w) == "(" + w + inner + w + ")";
    hide Print;
    assert "(" + w + inner + w + ")" + rest == "(" + (w + (inner + (w + (")" + rest))));
  }

  lemma CloseFollows(w: string, close: string)
    requires AllSpace(w) && close != "" && (close[0] == ')' || close[0] == ':')
    ensures Follows(w + close, -1)
  {
    SpacedFollows(w, close, -1);
  }

  lemma CloseSkipped(w: string, rest: string)
    requires AllSpace(w)
    ensures Skip(w + (")" + rest)) == ")" + rest
  {
    SkipSpaces(w, ")" + rest);
  }

  lemma ParenRead(h: Host, vars: map<string, Value>, s: string, v: Value, close: string, rest: string)
    requires s != "" && s[0] == '(' && close == ")" + rest && Ternary(h, vars, s[1..]) == Done(v, close)
    ensures UnaryExpr(h, vars, s) == Done(v, rest)
  {
    hide Ternary, Quoted, Named;
    assert Skip(s) == s && Skip(close) == close && close[0] == ')' && close[1..] == rest;
  }

  lemma GetText(t: Tree, w: string, rest: string)
    requires t.Get?
    ensures
      var close := ")" + (PathText(t.path) + rest);
      Print(t, 6, w) + rest == "erm" + (".get(" + (w + (Print(t.t, 0, w) + (w + close))))
  {
    var inner, path := Print(t.t, 0, w), PathText(t.path);
    assert Print(t, 6, w) == "erm.get(" + w + inner + w + ")" + path;
    hide Print, PathText;
    assert "erm.get(" == "erm" + ".get(";
    assert "erm" + ".get(" + w + inner + w + ")" + path + rest
      == "erm" + (".get(" + (w + (inner + (w + (")" + (path + rest))))));
  }

  // What is read behind erm.get( and its argument.
  lemma GetRead(h: Host, vars: map<string, Value>, s: string, v: Value, w: string, path: seq<string>, rest: string)
    requires AllSpace(w) && (forall i :: 0 <= i < |path| ==> IsWord(path[i])) && Breaks(rest)
    requires Ternary(h, vars, s) == Done(v, ")" + (PathText(path) + rest))
    ensures UnaryExpr(h, vars, "erm" + (".get(" + s)) == Done(Follow(Unwrap(v), path), rest)
  {
    hide Ternary, UnaryExpr, PathText, Path, Follow, Unwrap;
    var call := ".get(" + s;
    var close := ")" + (PathText(path) + rest);
    assert call[0] == '.' && call[..5] == ".get(" && call[5..] == s;
    WordRead(h, vars, "erm", call);
    assert close[0] == ')' && Skip(close) == close && close[1..] == PathText(path) + rest;
    PathRead(Unwrap(v), path, rest);
  }

  lemma {:induction false} ReadUnary(h: Host, vars: map<string, Value>, t: Tree, w: string, rest: string)
    requires Proper(h, t) && AllSpace(w) && Breaks(rest)
    ensures UnaryExpr(h, vars, Print(t, 6, w) + rest) == Done(Denote(h, vars, t), rest)
    decreases t, Stage(t, 6)
  {
    hide UnaryExpr, Print, OpLevel;
    if IsAtom(t) {
      AtomRead(h, vars, t, 6, w, rest);
    } else if t.Get? {
      ReadGet(h, vars, t, w, rest);
    } else if t.Not? || t.Neg? {
      var text := Print(t.t, 6, w) + rest;
      PrefixText(t, w, rest);
      SpaceBefore(h, vars, w, text);
      ReadUnary(h, vars, t.t, w, rest);
      PrefixRead(h, vars, if t.Not? then '!' else '-', w + text, Denote(h, vars, t.t), rest);
    } else {
      ReadParens(h, vars, t, w, rest);
    }
  }

  lemma {:induction false} ReadGet(h: Host, vars: map<string, Value>, t: Tree, w: string, rest: string)
    requires Proper(h, t) && AllSpace(w) && Breaks(rest) && t.Get?
    ensures UnaryExpr(h, vars, Print(t, 6, w) + rest) == Done(Denote(h, vars, t), rest)
    decreases t, 0
  {
    hide Ternary, UnaryExpr, Print, Skip, PathText, Follow, Unwrap;
    var close := ")" + (PathText(t.path) + rest);
    var inside := Print(t.t, 0, w) + (w + close);
    GetText(t, w, rest);
    SpaceBefore(h, vars, w, inside);
    CloseFollows(w, close);
    CloseSkipped(w, PathText(t.path) + rest);
    ReadTernary(h, vars, t.t, w, w + close);
    GetRead(h, vars, w + inside, Denote(h, vars, t.t), w, t.path, rest);
  }

  lemma {:induction false} ReadParens(h: Host, vars: map<string, Value>, t: Tree, w: string, rest: string)
    requires Proper(h, t) && AllSpace(w) && Breaks(rest) && Level(t) < 6
    ensures UnaryExpr(h, vars, Print(t, 6, w) + rest) == Done(Denote(h, vars, t), rest)
    decreases t, 100
  {
    hide Ternary, Denote, UnaryExpr, Print, Skip;
    var close := ")" + rest;
    var inside := w + (Print(t, 0, w) + (w + close));
    ParenText(t, w, rest);
    SpaceBefore(h, vars, w, Print(t, 0, w) + (w + close));
    CloseFollows(w, close);
    CloseSkipped(w, rest);
    ReadTernary(h, vars, t, w, w + close);
    assert ("(" + inside)[1..] == inside;
    ParenRead(h, vars, "(" + inside, Denote(h, vars, t), close, rest);
  }

  lemma {:induction false} ReadMul(h: Host, vars: map<string, Value>, t: Tree, w: string, rest: string)
    requires Proper(h, t) && AllSpace(w) && Breaks(rest)
    ensures MulExpr(h, vars, Print(t, 5, w) + rest) == MulRest(h, vars, Denote(h, vars, t), rest)
    decreases t, Stage(t, 5)
  {
    hide UnaryExpr, Print, Skip;
    if Level(t) == 5 {
      var tail := Print(t.r, 6, w) + rest;
      var right := w + (t.op + (w + tail));
      BinaryText(t, w, rest);
      AfterOp(w, t.op, tail);
      ReadMul(h, vars, t.l, w, right);
      SpaceBefore(h, vars, w, tail);
      ReadUnary(h, vars, t.r, w, rest);
      OneChar(t.op);
    } else {
      PrintNext(t, 5, w);
      ReadUnary(h, vars, t, w, rest);
    }
  }

  lemma {:induction false} ReadAdd(h: Host, vars: map<string, Value>, t: Tree, w: string, rest: string)
    requires Proper(h, t) && AllSpace(w) && Follows(rest, 4)
    ensures AddExpr(h, vars, Print(t, 4, w) + rest) == AddRest(h, vars, Denote(h, vars, t), rest)
    decreases t, Stage(t, 4)
  {
    hide UnaryExpr, MulExpr, Print, Skip, MulRest;
    if Level(t) == 4 {
      var tail := Print(t.r, 5, w) + rest;
      var right := w + (t.op + (w + tail));
      BinaryText(t, w, rest);
      AfterOp(w, t.op, tail);
      ReadAdd(h, vars, t.l, w, right);
      SpaceBefore(h, vars, w, tail);
      ReadMul(h, vars, t.r, w, rest);
      LoopsEnd(h, vars, Denote(h, vars, t.r), rest);
      RestSkipped(h, vars, Denote(h, vars, t), rest);
      OneChar(t.op);
    } else {
      PrintNext(t, 4, w);
      ReadMul(h, vars, t, w, rest);
      LoopsEnd(h, vars, Denote(h, vars, t), rest);
      RestSkipped(h, vars, Denote(h, vars, t), rest);
    }
  }

  lemma {:induction false} ReadCompare(h: Host, vars: map<string, Value>, t: Tree, w: string, rest: string)
    requires Proper(h, t) && AllSpace(w) && Follows(rest, 2)
    ensures CompareExpr(h, vars, Print(t, 3, w) + rest) == Done(Denote(h, vars, t), Skip(rest))
    decreases t, Stage(t, 3)
  {
    hide AddExpr, Print, Skip, AddRest, FindOp, Compare;
    SkipTwice(rest);
    if Level(t) == 3 {
      var tail := Print(t.r, 4, w) + rest;
      var right := w + (t.op + (w + tail));
      BinaryText(t, w, rest);
      AfterOp(w, t.op, tail);
      ReadAdd(h, vars, t.l, w, right);
      LoopsEnd(h, vars, Denote(h, vars, t.l), right);
      PrintStarts(h, t.r, 4, w);
      OneChar(t.op);
      OpFound(t.op, w, tail);
      SpaceBefore(h, vars, w, tail);
      ReadAdd(h, vars, t.r, w, rest);
      LoopsEnd(h, vars, Denote(h, vars, t.r), rest);
      SkipTwice(right);
    } else {
      PrintNext(t, 3, w);
      ReadAdd(h, vars, t, w, rest);
      LoopsEnd(h, vars, Denote(h, vars, t), rest);
      NoComparison(Skip(rest));
    }
  }

  lemma {:induction false} ReadAnd(h: Host, vars: map<string, Value>, t: Tree, w: string, rest: string)
    requires Proper(h, t) && AllSpace(w) && Follows(rest, 2)
    ensures AndExpr(h, vars, Print(t, 2, w) + rest) == AndRest(h, vars, Denote(h, vars, t), rest)
    decreases t, Stage(t, 2)
  {
    hide CompareExpr, Print, Skip;
    if Level(t) == 2 {
      var tail := Print(t.r, 3, w) + rest;
      var right := w + (t.op + (w + tail));
      BinaryText(t, w, rest);
      AfterOp(w, t.op, tail);
      OneChar(t.op);
      ReadAnd(h, vars, t.l, w, right);
      SpaceBefore(h, vars, w, tail);
      ReadCompare(h, vars, t.r, w, rest);
      RestSkipped(h, vars, Denote(h, vars, t), rest);
    } else {
      PrintNext(t, 2, w);
      ReadCompare(h, vars, t, w, rest);
      RestSkipped(h, vars, Denote(h, vars, t), rest);
    }
  }

  lemma {:induction false} ReadOr(h: Host, vars: map<string, Value>, t: Tree, w: string, rest: string)
    requires Proper(h, t) && AllSpace(w) && Follows(rest, 1)
    ensures OrExpr(h, vars, Print(t, 1, w) + rest) == OrRest(h, vars, Denote(h, vars, t), rest)
    decreases t, Stage(t, 1)
  {
    hide AndExpr, Print, Skip, AndRest, OrRest, Denote, Proper, StartsWith, IsOp, Combine;
    if Level(t) == 1 {
      OrDenotes(h, vars, t);
      var tail := Print(t.r, 2, w) + rest;
      var right := w + (t.op + (w + tail));
      BinaryText(t, w, rest);
      AfterOp(w, t.op, tail);
      OneChar(t.op);
      ReadOr(h, vars, t.l, w, right);
      SpaceBefore(h, vars, w, tail);
      ReadAnd(h, vars, t.r, w, rest);
      LoopsEnd(h, vars, Denote(h, vars, t.r), rest);
      OrContinues(h, vars, Denote(h, vars, t.l), right, Denote(h, vars, t.r), Skip(rest));
      RestSkipped(h, vars, Denote(h, vars, t), rest);
    } else {
      PrintNext(t, 1, w);
      ReadAnd(h, vars, t, w, rest);
      LoopsEnd(h, vars, Denote(h, vars, t), rest);
      RestSkipped(h, vars, Denote(h, vars, t), rest);
    }
  }

  lemma {:induction false} ReadTernary(h: Host, vars: map<string, Value>, t: Tree, w: string, rest: string)
    requires Proper(h, t) && AllSpace(w) && Follows(rest, -1)
    ensures Ternary(h, vars, Print(t, 0, w) + rest) == Done(Denote(h, vars, t), Skip(rest))
    decreases t, Stage(t, 0)
  {
    hide OrExpr, Print, Skip, OrRest, Combine, Follow, Unwrap, Chars, IsWord, ToBool, ToNumber;
    SkipTwice(rest);
    if t.Cond? {
      var third := Print(t.f, 0, w) + rest;
      var second := Print(t.t, 0, w) + (w + (":" + (w + third)));
      CondText(t, w, rest);
      MarkFollows(w, '?', w + second);
      MarkFollows(w, ':', w + third);
      ReadOr(h, vars, t.c, w, w + ("?" + (w + second)));
      LoopsEnd(h, vars, Denote(h, vars, t.c), w + ("?" + (w + second)));
      SkipTwice(w + ("?" + (w + second)));
      SpaceBefore(h, vars, w, second);
      ReadTernary(h, vars, t.t, w, w + (":" + (w + third)));
      SkipTwice(w + (":" + (w + third)));
      SpaceBefore(h, vars, w, third);
      ReadTernary(h, vars, t.f, w, rest);
    } else {
      PrintNext(t, 0, w);
      ReadOr(h, vars, t, w, rest);
      LoopsEnd(h, vars, Denote(h, vars, t), rest);
    }
  }

  lemma SpaceFollows(w: string)
    requires AllSpace(w)
    ensures Follows(w, -1) && Skip(w) == "" && Skip("") == ""
  {
    assert w + "" == w;
    SkipSpaces(w, "");
  }

  // ---------------------------------------------------------------- what expressions mean

  // Null, false, zero and the empty string are not true; everything else is.
  predicate Truthy(h: Host, v: Value)
  {
    !(v == Null || v == Boolean(false) || v == String("") || (v.Number? && h.isZero(v.n)))
  }

  // Strings are read as numbers; what has no number counts as zero.
  function Numeric(h: Host, v: Value): Float
  {
    if v.Number? then v.n else if v == Boolean(true) then h.one else if v.String? then h.stringFloat(v.s) else h.zero
  }

  function TextOf(h: Host, v: Value): string
  {
    if v.String? then v.s
    else if v == Null then "null"
    else if v == Boolean(true) then "true"
    else if v == Boolean(false) then "false"
    else if v.Number? then h.showFloat(v.n)
    else h.showCompound(v)
  }

  // A sum with a string joins texts.
  function Sum(h: Host, l: Value, r: Value): Value
  {
    if l.String? || r.String? then String(TextOf(h, l) + TextOf(h, r)) else Number(h.add(Numeric(h, l), Numeric(h, r)))
  }

  function Quotient(h: Host, f: (Float, Float) -> Float, l: Value, r: Value): Value
  {
    Number(if h.isZero(Numeric(h, r)) then h.zero else f(Numeric(h, l), Numeric(h, r)))
  }

  function Comparison(h: Host, op: string, l: Value, r: Value): bool
  {
    if op == "==" || op == "===" then h.same(l, r)
    else if op == "!=" || op == "!==" then !h.same(l, r)
    else if op == "<" then h.less(Numeric(h, l), Numeric(h, r))
    else if op == ">" then h.less(Numeric(h, r), Numeric(h, l))
    else if op == "<=" then h.atMost(Numeric(h, l), Numeric(h, r))
    else h.atMost(Numeric(h, r), Numeric(h, l))
  }

  function Arithmetic(h: Host, op: string, l: Value, r: Value): Value
  {
    if op == "+" then Sum(h, l, r)
    else if op == "-" then Number(h.subtract(Numeric(h, l), Numeric(h, r)))
    else if op == "*" then Number(h.multiply(Numeric(h, l), Numeric(h, r)))
    else Quotient(h, if op == "/" then h.divide else h.remainder, l, r)
  }

  function Apply(h: Host, op: string, l: Value, r: Value): Value
  {
    if op == "||" then (if Truthy(h, l) then l else r)
    else if op == "&&" then (if Truthy(h, l) then r else l)
    else if op == "+" || op == "-" || op == "*" || op == "/" || op == "%" then Arithmetic(h, op, l, r)
    else Boolean(Comparison(h, op, l, r))
  }

  // What a map holds under a key; nothing else has members.
  function Lookup(m: Value, key: string, otherwise: Value): Value
  {
    match m case Map(entries) => if key in entries then entries[key] else otherwise case _ => otherwise
  }

  function Walk(v: Value, path: seq<string>): Value
  {
    if path == [] then v else Lookup(Walk(v, path[..|path| - 1]), path[|path| - 1], Null)
  }

  function Character(p: Piece): char
  {
    match p
    case Escaped('n') => '\n'
    case Escaped('t') => '\t'
    case Escaped('r') => '\r'
    case _ => p.c
  }

  // The value of an expression, apart from how the parser computes it.
  function Meaning(h: Host, vars: map<string, Value>, t: Tree): Value
    requires Proper(h, t)
  {
    match t
    case Num(text) => Number(h.readFloat(text).value)
    case Str(_, pieces) => String(seq(|pieces|, i requires 0 <= i < |pieces| => Character(pieces[i])))
    case Bool(b) => Boolean(b)
    case NullLit(_) => Null
    case Name(name, path) => Walk(if name in vars then vars[name] else Null, path)
    case Get(x, path) => var v := Meaning(h, vars, x); Walk(Lookup(v, "value", v), path)
    case Not(x) => Boolean(!Truthy(h, Meaning(h, vars, x)))
    case Neg(x) => Number(h.negate(Numeric(h, Meaning(h, vars, x))))
    case Binary(op, l, r) => Apply(h, op, Meaning(h, vars, l), Meaning(h, vars, r))
    case Cond(c, x, f) => if Truthy(h, Meaning(h, vars, c)) then Meaning(h, vars, x) else Meaning(h, vars, f)
  }

  lemma SameConversions(h: Host, v: Value)
    ensures ToBool(h, v) == Truthy(h, v) && ToNumber(h, v) == Numeric(h, v) && Show(h, v) == TextOf(h, v)
  {
  }

  lemma SameComparison(h: Host, op: string, l: Value, r: Value)
    requires op in COMPARISONS
    ensures Compare(h, op, l, r) == Boolean(Comparison(h, op, l, r))
  {
    SameConversions(h, l);
    SameConversions(h, r);
    hide ToNumber, Numeric;
  }

  lemma SameArithmetic(h: Host, op: string, l: Value, r: Value)
    requires op in ["+", "-", "*", "/", "%"]
    ensures Arith(h, op[0], l, r) == Arithmetic(h, op, l, r)
  {
    SameConversions(h, l);
    SameConversions(h, r);
    assert Show(h, l) == TextOf(h, l) && Show(h, r) == TextOf(h, r);
    assert l.String? ==> TextOf(h, l) == l.s;
    assert r.String? ==> TextOf(h, r) == r.s;
    hide ToNumber, Numeric, Show, TextOf;
  }

  lemma SameOperators(h: Host, op: string, l: Value, r: Value)
    requires IsOp(op)
    ensures Combine(h, op, l, r) == Apply(h, op, l, r)
  {
    hide ToBool, Truthy, Arith, Arithmetic, Compare, Comparison;
    SameConversions(h, l);
    if op in COMPARISONS {
      SameComparison(h, op, l, r);
    } else if op in ["+", "-", "*", "/", "%"] {
      SameArithmetic(h, op, l, r);
    }
  }

  lemma {:induction false} SameWalk(v: Value, path: seq<string>)
    ensures Follow(v, path) == Walk(v, path)
    decreases |path|
  {
    if |path| == 1 {
      assert path[..0] == [] && path[1..] == [];
      assert Walk(v, path[..0]) == v && Follow(Property(v, path[0]), path[1..]) == Property(v, path[0]);
    } else if |path| > 1 {
      var p, q := path[..|path| - 1], path[1..];
      assert q[..|q| - 1] == p[1..];
      SameWalk(v, p);
      SameWalk(Property(v, path[0]), q);
      SameWalk(Property(v, path[0]), p[1..]);
    }
  }

  lemma {:induction false} SameChars(pieces: seq<Piece>)
    ensures |Chars(pieces)| == |pieces| && forall i :: 0 <= i < |pieces| ==> Chars(pieces)[i] == Character(pieces[i])
  {
    if pieces != [] {
      SameChars(pieces[1..]);
    }
  }

  lemma {:induction false} DenoteIsMeaning(h: Host, vars: map<string, Value>, t: Tree)
    requires Proper(h, t)
    ensures Denote(h, vars, t) == Meaning(h, vars, t)
    decreases t
  {
    hide Combine, Apply, Truthy, Numeric, ToBool, ToNumber, Follow, Walk, Chars, Character, IsOp, IsWord;
    match t {
      case Str(_, pieces) =>
        SameChars(pieces);
        assert Chars(pieces) == seq(|pieces|, i requires 0 <= i < |pieces| => Character(pieces[i]));
      case Name(name, path) => SameWalk(if name in vars then vars[name] else Null, path);
      case Get(x, path) =>
        DenoteIsMeaning(h, vars, x);
        SameWalk(Unwrap(Denote(h, vars, x)), path);
      case Not(x) =>
        DenoteIsMeaning(h, vars, x);
        SameConversions(h, Denote(h, vars, x));
      case Neg(x) =>
        DenoteIsMeaning(h, vars, x);
        SameConversions(h, Denote(h, vars, x));
      case Binary(op, l, r) =>
        DenoteIsMeaning(h, vars, l);
        DenoteIsMeaning(h, vars, r);
        SameOperators(h, op, Denote(h, vars, l), Denote(h, vars, r));
      case Cond(c, x, f) =>
        DenoteIsMeaning(h, vars, c);
        DenoteIsMeaning(h, vars, x);
        DenoteIsMeaning(h, vars, f);
        SameConversions(h, Denote(h, vars, c));
      case _ =>
    }
  }

  /** Evaluating an expression's text gives the expression's value, and reads all of the text: for
      every expression, and any space between its tokens, before it and behind it. */
  lemma EvalPrinted(h: Host, vars: map<string, Value>, t: Tree, w: string)
    requires Proper(h, t) && AllSpace(w)
    ensures EvalText(h, vars, w + Print(t, 0, w) + w) == Some(Meaning(h, vars, t))
  {
    hide Ternary, Denote, Meaning, Print;
    DenoteIsMeaning(h, vars, t);
    var text := Print(t, 0, w);
    hide Proper;
    assert w + text + w == w + (text + w);
    SpaceBefore(h, vars, w, text + w);
    SpaceFollows(w);
    ReadTernary(h, vars, t, w, w);
  }

  // What cannot go on an expression is an error.
  lemma TrailingRefused(h: Host, vars: map<string, Value>, t: Tree, w: string, x: string)
    requires Proper(h, t) && AllSpace(w) && x != "" && Breaks(x) && NextLevel(x) == -1 && !IsSpace(x[0])
    ensures EvalText(h, vars, w + Print(t, 0, w) + w + x) == None
  {
    hide Ternary, Denote, Print, Proper, Breaks, NextLevel;
    var text := Print(t, 0, w);
    assert w + text + w + x == w + (text + (w + x));
    SpaceBefore(h, vars, w, text + (w + x));
    SpacedFollows(w, x, -1);
    ReadTernary(h, vars, t, w, w + x);
  }

  // A question mark wants its colon.
  lemma ColonWanted(h: Host, vars: map<string, Value>, c: Tree, t: Tree, w: string)
    requires Proper(h, c) && Proper(h, t) && AllSpace(w)
    ensures EvalText(h, vars, Print(c, 1, w) + w + "?" + w + Print(t, 0, w) + w) == None
  {
    hide OrExpr, Denote, Print, Proper, OrRest, Skip;
    var second := Print(t, 0, w) + w;
    var tail := w + ("?" + (w + second));
    assert Print(c, 1, w) + w + "?" + w + Print(t, 0, w) + w == Print(c, 1, w) + tail;
    MarkFollows(w, '?', w + second);
    ReadOr(h, vars, c, w, tail);
    LoopsEnd(h, vars, Denote(h, vars, c), tail);
    SkipTwice(tail);
    SpaceBefore(h, vars, w, second);
    SpaceFollows(w);
    ReadTernary(h, vars, t, w, w);
  }

  // ---------------------------------------------------------------- the parser

  lemma QuotedStep(quote: char, acc: string, s: string)
    ensures s == "" ==> Quoted(quote, acc, s) == Done(String(acc), s)
    ensures s != "" && s[0] == quote ==> Quoted(quote, acc, s) == Done(String(acc), s[1..])
    ensures s != "" && s[0] != quote && s[0] == '\\' && |s| > 1 ==>
      Quoted(quote, acc, s) == Quoted(quote, acc + [Unescape(s[1])], s[2..])
    ensures s != "" && s[0] != quote && !(s[0] == '\\' && |s| > 1) ==>
      Quoted(quote, acc, s) == Quoted(quote, acc + [s[0]], s[1..])
  {
  }

  // The parser's answer: a value and the text left, or an error.
  ghost predicate Answers(p: Parsed, r: Option<Value>, rest: string)
  {
    match p case Done(v, rest') => r == Some(v) && rest == rest' case Failed => r == None
  }

  lemma SuffixStep(input: string, pos: nat, n: nat)
    requires pos + n <= |input|
    ensures input[pos..][n..] == input[pos + n..] && |input[pos..]| == |input| - pos
    ensures input[pos..][..n] == input[pos..pos + n]
  {
  }

  // The first operator the text begins with, tried in their order.
  method FirstOperator(s: string) returns (op: Option<string>)
    ensures op == FindOp(s, COMPARISONS) && (op.Some? ==> 0 < |op.value| <= |s|)
  {
    assert COMPARISONS[0..] == COMPARISONS;
    for i := 0 to |COMPARISONS|
      invariant FindOp(s, COMPARISONS) == FindOp(s, COMPARISONS[i..])
    {
      if StartsWith(s, COMPARISONS[i]) {
        LaterChars(COMPARISONS[i]);
        return Some(COMPARISONS[i]);
      }
      assert COMPARISONS[i..][1..] == COMPARISONS[i + 1..];
    }
    op := None;
  }

  class ExprParser {
    const h: Host
    const vars: map<string, Value>
    const input: string
    var pos: nat

    constructor (h: Host, vars: map<string, Value>, input: string)
      ensures this.h == h && this.vars == vars && this.input == input && pos == 0
    {
      this.h, this.vars, this.input := h, vars, input;
      pos := 0;
    }

    ghost predicate Valid()
      reads this
    {
      pos <= |input|
    }

    // The text still to be read.
    ghost function Rest(): string
      reads this
      requires Valid()
    {
      input[pos..]
    }

    method SkipSpace()
      requires Valid()
      modifies this`pos
      ensures Valid() && old(pos) <= pos && Rest() == Skip(old(Rest()))
    {
      while pos < |input| && IsSpace(input[pos])
        invariant Valid() && old(pos) <= pos && Skip(Rest()) == Skip(old(Rest()))
        decreases |input| - pos
      {
        SuffixStep(input, pos, 1);
        pos := pos + 1;
      }
    }

    method Advance(n: nat)
      requires Valid() && n <= |Rest()|
      modifies this`pos
      ensures Valid() && pos == old(pos) + n && Rest() == old(Rest())[n..]
    {
      SuffixStep(input, pos, n);
      pos := pos + n;
    }

    // Is this character next?
    predicate At(c: char)
      reads this
      requires Valid()
    {
      pos < |input| && input[pos] == c
    }

    method ParseTernary() returns (r: Option<Value>)
      requires Valid()
      modifies this`pos
      ensures Valid() && old(pos) <= pos && Answers(Ternary(h, vars, old(Rest())), r, Rest())
      decreases |input| - pos, 12
    {
      hide OrExpr, Skip;
      r := ParseOr();
      if r.None? {
        return;
      }
      SkipSpace();
      if At('?') {
        Advance(1);
        var whenTrue := ParseTernary();
        if whenTrue.None? {
          return None;
        }
        SkipSpace();
        if At(':') {
          Advance(1);
          var whenFalse := ParseTernary();
          if whenFalse.None? {
            return None;
          }
          return if ToBool(h, r.value) then whenTrue else whenFalse;
        } else {
          return None;
        }
      }
    }

    method ParseOr() returns (r: Option<Value>)
      requires Valid()
      modifies this`pos
      ensures Valid() && old(pos) <= pos && Answers(OrExpr(h, vars, old(Rest())), r, Rest())
      decreases |input| - pos, 11
    {
      hide AndExpr, Skip;
      r := ParseAnd();
      if r.None? {
        return;
      }
      while true
        invariant Valid() && old(pos) <= pos && r.Some?
          && OrExpr(h, vars, old(Rest())) == OrRest(h, vars, r.value, Rest())
        decreases |input| - pos
      {
        SkipSpace();
        if StartsWith(input[pos..], "||") {
          Advance(2);
          var right := ParseAnd();
          if right.None? {
            return None;
          }
          if !ToBool(h, r.value) {
            r := right;
          }
        } else {
          break;
        }
      }
    }

    method ParseAnd() returns (r: Option<Value>)
      requires Valid()
      modifies this`pos
      ensures Valid() && old(pos) <= pos && Answers(AndExpr(h, vars, old(Rest())), r, Rest())
      decreases |input| - pos, 10
    {
      hide CompareExpr, Skip;
      r := ParseComparison();
      if r.None? {
        return;
      }
      while true
        invariant Valid() && old(pos) <= pos && r.Some?
          && AndExpr(h, vars, old(Rest())) == AndRest(h, vars, r.value, Rest())
        decreases |input| - pos
      {
        SkipSpace();
        if StartsWith(input[pos..], "&&") {
          Advance(2);
          var right := ParseComparison();
          if right.None? {
            return None;
          }
          if ToBool(h, r.value) {
            r := right;
          }
        } else {
          break;
        }
      }
    }

    method ParseComparison() returns (r: Option<Value>)
      requires Valid()
      modifies this`pos
      ensures Valid() && old(pos) <= pos && Answers(CompareExpr(h, vars, old(Rest())), r, Rest())
      decreases |input| - pos, 9
    {
      hide AddExpr, Skip, Compare;
      var left := ParseAddSub();
      if left.None? {
        return None;
      }
      SkipSpace();
      var op := FirstOperator(input[pos..]);
      if op.Some? {
        Advance(|op.value|);
        var right := ParseAddSub();
        if right.None? {
          return None;
        }
        return Some(Compare(h, op.value, left.value, right.value));
      }
      return left;
    }

    method ParseAddSub() returns (r: Option<Value>)
      requires Valid()
      modifies this`pos
      ensures Valid() && old(pos) <= pos && Answers(AddExpr(h, vars, old(Rest())), r, Rest())
      decreases |input| - pos, 8
    {
      hide MulExpr, Skip, Arith;
      r := ParseMulDiv();
      if r.None? {
        return;
      }
      while true
        invariant Valid() && old(pos) <= pos && r.Some?
          && AddExpr(h, vars, old(Rest())) == AddRest(h, vars, r.value, Rest())
        decreases |input| - pos
      {
        SkipSpace();
        if At('+') || At('-') {
          var c := input[pos];
          Advance(1);
          var right := ParseMulDiv();
          if right.None? {
            return None;
          }
          r := Some(Arith(h, c, r.value, right.value));
        } else {
          break;
        }
      }
    }

    method ParseMulDiv() returns (r: Option<Value>)
      requires Valid()
      modifies this`pos
      ensures Valid() && old(pos) <= pos && Answers(MulExpr(h, vars, old(Rest())), r, Rest())
      decreases |input| - pos, 7
    {
      hide UnaryExpr, Skip, Arith;
      r := ParseUnary();
      if r.None? {
        return;
      }
      while true
        invariant Valid() && old(pos) <= pos && r.Some?
          && MulExpr(h, vars, old(Rest())) == MulRest(h, vars, r.value, Rest())
        decreases |input| - pos
      {
        SkipSpace();
        if At('*') || At('/') || At('%') {
          var c := input[pos];
          Advance(1);
          var right := ParseUnary();
          if right.None? {
            return None;
          }
          r := Some(Arith(h, c, r.value, right.value));
        } else {
          break;
        }
      }
    }

    method ParseUnary() returns (r: Option<Value>)
      requires Valid()
      modifies this`pos
      ensures Valid() && old(pos) <= pos && Answers(UnaryExpr(h, vars, old(Rest())), r, Rest())
      decreases |input| - pos, 6
    {
      hide Primary, Skip;
      SkipSpace();
      if At('!') || At('-') {
        var c := input[pos];
        Advance(1);
        r := ParseUnary();
        if r.Some? {
          r := Some(if c == '!' then Boolean(!ToBool(h, r.value)) else Number(h.negate(ToNumber(h, r.value))));
        }
        return;
      }
      r := ParsePrimary();
    }

    // A closing parenthesis, if it is there.
    method CloseParen()
      requires Valid()
      modifies this`pos
      ensures Valid() && old(pos) <= pos && Rest() == AfterParen(old(Rest()))
    {
      hide Skip;
      SkipSpace();
      if At(')') {
        Advance(1);
      }
    }

    method ParsePrimary() returns (r: Option<Value>)
      requires Valid()
      modifies this`pos
      ensures Valid() && old(pos) <= pos && Answers(Primary(h, vars, old(Rest())), r, Rest())
      decreases |input| - pos, 5
    {
      hide Ternary, Skip, Quoted, Named, AfterParen;
      ghost var whole := Rest();
      SkipSpace();
      SkipTwice(whole);
      if pos >= |input| {
        return None;
      }
      var c := input[pos];
      if c == '(' {
        Advance(1);
        r := ParseTernary();
        if r.Some? {
          CloseParen();
        }
      } else if c == '[' || c == '{' {
        var found := h.literal(input[pos..], vars);
        if found.Some? && found.value.1 <= |input| - pos {
          Advance(found.value.1);
          r := Some(found.value.0);
        } else {
          r := None;
        }
      } else if IsNumberChar(c) {
        var text := TakeNumber();
        var f := h.readFloat(text);
        r := if f.Some? then Some(Number(f.value)) else None;
      } else if c == '"' || c == '\'' || c == '`' {
        Advance(1);
        r := ReadQuoted(c);
      } else if IsNameStart(c) {
        var name := TakeName();
        r := ReadNamed(name, whole);
      } else {
        r := None;
      }
    }

    method TakeNumber() returns (text: string)
      requires Valid()
      modifies this`pos
      ensures Valid() && old(pos) <= pos
      ensures var n := NumberLength(old(Rest())); text == old(Rest())[..n] && Rest() == old(Rest())[n..]
    {
      var start := pos;
      while pos < |input| && IsNumberChar(input[pos])
        invariant old(pos) == start <= pos <= |input|
          && NumberLength(input[start..]) == pos - start + NumberLength(input[pos..])
        decreases |input| - pos
      {
        SuffixStep(input, pos, 1);
        pos := pos + 1;
      }
      SuffixStep(input, start, pos - start);
      text := input[start..pos];
    }

    method TakeName() returns (name: string)
      requires Valid()
      modifies this`pos
      ensures Valid() && old(pos) <= pos
      ensures var n := NameLength(old(Rest())); name == old(Rest())[..n] && Rest() == old(Rest())[n..]
    {
      var start := pos;
      while pos < |input| && IsNameChar(input[pos])
        invariant old(pos) == start <= pos <= |input|
          && NameLength(input[start..]) == pos - start + NameLength(input[pos..])
        decreases |input| - pos
      {
        SuffixStep(input, pos, 1);
        pos := pos + 1;
      }
      SuffixStep(input, start, pos - start);
      name := input[start..pos];
    }

    method ReadQuoted(quote: char) returns (r: Option<Value>)
      requires Valid()
      modifies this`pos
      ensures Valid() && old(pos) <= pos && Answers(Quoted(quote, "", old(Rest())), r, Rest())
    {
      hide Quoted, Unescape;
      var s := "";
      while pos < |input| && input[pos] != quote
        invariant Valid() && old(pos) <= pos && Quoted(quote, "", old(Rest())) == Quoted(quote, s, Rest())
        decreases |input| - pos
      {
        QuotedStep(quote, s, Rest());
        if input[pos] == '\\' && pos + 1 < |input| {
          s := s + [Unescape(input[pos + 1])];
          Advance(2);
        } else {
          s := s + [input[pos]];
          Advance(1);
        }
      }
      QuotedStep(quote, s, Rest());
      if pos < |input| {
        Advance(1);
      }
      r := Some(String(s));
    }

    method ReadNamed(name: string, ghost whole: string) returns (r: Option<Value>)
      requires Valid() && |Rest()| < |whole|
      modifies this`pos
      ensures Valid() && old(pos) <= pos && Answers(Named(h, vars, name, old(Rest()), whole), r, Rest())
      decreases |input| - pos, 13
    {
      hide Ternary, Path, AfterParen;
      if name == "true" {
        return Some(Boolean(true));
      }
      if name == "false" {
        return Some(Boolean(false));
      }
      if name == "null" || name == "undefined" {
        return Some(Null);
      }
      if name == "erm" && StartsWith(input[pos..], ".get(") {
        Advance(5);
        r := ParseTernary();
        if r.Some? {
          CloseParen();
          r := ReadPath(Unwrap(r.value));
        }
        return;
      }
      r := ReadPath(if name in vars then vars[name] else Null);
    }

    method ReadPath(start: Value) returns (r: Option<Value>)
      requires Valid()
      modifies this`pos
      ensures Valid() && old(pos) <= pos && Answers(Path(start, old(Rest())), r, Rest())
    {
      hide NameLength;
      var v := start;
      while At('.')
        invariant Valid() && old(pos) <= pos && Path(start, old(Rest())) == Path(v, Rest())
        decreases |input| - pos
      {
        Advance(1);
        var prop := TakeName();
        v := Property(v, prop);
      }
      r := Some(v);
    }
  }

  method Eval(h: Host, vars: map<string, Value>, expr: string) returns (r: Option<Value>)
    ensures r == EvalText(h, vars, expr)
  {
    hide Ternary, Skip;
    var parser := new ExprParser(h, vars, expr);
    assert expr[0..] == expr;
    r := parser.ParseTernary();
    if r.Some? {
      parser.SkipSpace();
      if parser.pos < |expr| {
        return None;
      }
    }
  }
}
