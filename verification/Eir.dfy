/** E-IR functions and a pc-by-pc interpreter for them (src/jit/aot/ir.rs). */
module Eir {
  import opened MachineWords
  import opened Options

  datatype EirType = TI64 | TF64 | TBool | TPtr | TVoid | TDynamic

  datatype Inst =
    | ConstI64(dest: nat, word: i64)
    | ConstF64(dest: nat, float: F64)
    | ConstBool(dest: nat, flag: bool)
    | ConstNull(dest: nat)
    | ConstString(dest: nat, text: string)
    | ConstFuncPtr(dest: nat, symbol: string)
    | Move(dest: nat, src: nat, ty: EirType)
    | Binary(dest: nat, op: BinaryOp, ty: EirType, left: nat, right: nat)
    | Unary(dest: nat, uop: UnaryOp, ty: EirType, src: nat)
    | DefineGlobal(name: string, src: nat)
    | GetGlobal(dest: nat, name: string)
    | Call(dest: nat, callee: string, args: seq<nat>, retTy: EirType)
    | Print(src: nat)
    | Jump(target: nat)
    | BranchIfFalse(cond: nat, target: nat)
    | Return(result: Option<(nat, EirType)>)
    | Ignored  // an instruction that a build without the HTTP server gives no code

  datatype Function = Function(name: string, arity: nat, paramTypes: seq<EirType>, regCount: nat, code: seq<Inst>)

  // The names a module has declared before its bodies are compiled.
  datatype Env = Env(functions: map<string, EirType>, globals: set<string>, strings: set<string>)

  datatype State<!W> = State(pc: nat, regs: map<nat, Val>, world: W)

  datatype Outcome<!W> =
    | Running(state: State<W>)
    | Returned(value: Option<Val>, world: W)
    | Trapped
    | Stuck  // a register was read as something it does not hold

  // The tags that stand for the built-in global functions.
  function BuiltinTag(name: string): Option<i64>
  {
    if name == "print" || name == "println" then Some(-0x7_ffff_ffff_ffff)
    else if name == "serve" then Some(-0x7_ffff_ffff_fffe)
    else if name == "JSON" then Some(-0x7_ffff_ffff_fffd)
    else None
  }

  function ReadInt(regs: map<nat, Val>, r: nat): Option<i64>
  {
    if r in regs && regs[r].I? then Some(regs[r].i) else None
  }

  function ReadFloat(regs: map<nat, Val>, r: nat): Option<F64>
  {
    if r in regs && regs[r].F? then Some(regs[r].f) else None
  }

  function Read(regs: map<nat, Val>, r: nat, ty: EirType): Option<Val>
  {
    if ty == TF64 then (match ReadFloat(regs, r) case Some(f) => Some(F(f)) case None => None)
    else (match ReadInt(regs, r) case Some(i) => Some(I(i)) case None => None)
  }

  function ReadInts(regs: map<nat, Val>, rs: seq<nat>): (vs: Option<seq<i64>>)
  {
    if rs == [] then Some([])
    else match (ReadInt(regs, rs[0]), ReadInts(regs, rs[1..]))
      case (Some(v), Some(vs)) => Some([v] + vs)
      case _ => None
  }

  // The value of an integer operation; None when the machine traps.
  function IntOp<W>(host: Host<W>, op: BinaryOp, l: i64, r: i64): Option<i64>
  {
    match op
    case Add => Some(Wrap(l as int + r as int))
    case Sub => Some(Wrap(l as int - r as int))
    case Mul => Some(Wrap(l as int * r as int))
    case Div =>
      if r == 0 || (l as int == MIN_I64 && r == -1) then None else Some(Wrap(Quotient(l as int, r as int)))
    case Mod =>
      if r == 0 then None else Some(Wrap(l as int - r as int * Quotient(l as int, r as int)))
    case Eq => Some(Flag(l == r))
    case Ne => Some(Flag(l != r))
    case Lt => Some(Flag(l < r))
    case Le => Some(Flag(l <= r))
    case Gt => Some(Flag(l > r))
    case Ge => Some(Flag(l >= r))
    case _ => Some(host.bits(op, l, r))
  }

  function FloatOp<W>(host: Host<W>, op: BinaryOp, l: F64, r: F64): Val
  {
    if IsCompare(op) then I(Flag(host.fcmp(op, l, r))) else F(host.fop(op, l, r))
  }

  function Advance<W>(s: State<W>, dest: nat, v: Val): Outcome<W>
  {
    Running(s.(pc := s.pc + 1, regs := s.regs[dest := v]))
  }

  function Skip<W>(s: State<W>): Outcome<W>
  {
    Running(s.(pc := s.pc + 1))
  }

  function MainResult(name: string): Option<Val>
  {
    if name == "main" then Some(I(0)) else None
  }

  function Step<W>(host: Host<W>, env: Env, f: Function, s: State<W>): Outcome<W>
  {
    if s.pc >= |f.code| then Returned(MainResult(f.name), s.world) else
    match f.code[s.pc]
    case ConstI64(d, v) => Advance(s, d, I(v))
    case ConstF64(d, v) => Advance(s, d, F(v))
    case ConstBool(d, b) => Advance(s, d, I(Flag(b)))
    case ConstNull(d) => Advance(s, d, I(0))
    case ConstString(d, t) => if t in env.strings then Advance(s, d, I(host.stringValue(t))) else Skip(s)
    case ConstFuncPtr(d, sym) => if sym in env.functions then Advance(s, d, I(host.functionAddress(sym))) else Skip(s)
    case Move(d, src, ty) =>
      (match Read(s.regs, src, ty)
       case Some(v) => Advance(s, d, v)
       case None => Stuck)
    case Binary(d, op, TF64, l, r) =>
      (match (ReadFloat(s.regs, l), ReadFloat(s.regs, r))
       case (Some(x), Some(y)) => Advance(s, d, FloatOp(host, op, x, y))
       case _ => Stuck)
    case Binary(d, op, _, l, r) =>
      (match (ReadInt(s.regs, l), ReadInt(s.regs, r))
       case (Some(x), Some(y)) => (match IntOp(host, op, x, y) case Some(v) => Advance(s, d, I(v)) case None => Trapped)
       case _ => Stuck)
    case Unary(d, op, TF64, src) =>
      (match ReadFloat(s.regs, src)
       case Some(x) => Advance(s, d, F(host.funary(op, x)))
       case None => Stuck)
    case Unary(d, op, _, src) =>
      (match ReadInt(s.regs, src)
       case Some(x) =>
         Advance(s, d, I(match op case Neg => Wrap(-(x as int)) case Not => Flag(x == 0) case BitNot => host.bnot(x)))
       case None => Stuck)
    case DefineGlobal(name, src) =>
      if name !in env.globals then Skip(s)
      else (match ReadInt(s.regs, src)
            case Some(v) => Skip(s.(world := host.storeGlobal(name, v, s.world)))
            case None => Stuck)
    case GetGlobal(d, name) =>
      (match BuiltinTag(name)
       case Some(tag) => Advance(s, d, I(tag))
       case None => Advance(s, d, I(if name in env.globals then host.loadGlobal(name, s.world) else 0)))
    case Call(d, callee, args, _) =>
      if callee !in env.functions then Skip(s)
      else (match ReadInts(s.regs, args)
            case None => Stuck
            case Some(vs) =>
              if env.functions[callee] == TVoid then Skip(s.(world := host.callVoid(callee, vs, s.world)))
              else if env.functions[callee] == TF64 then
                var (v, w) := host.callFloat(callee, vs, s.world);
                Advance(s.(world := w), d, F(v))
              else
                var (v, w) := host.callWord(callee, vs, s.world);
                Advance(s.(world := w), d, I(v)))
    case Print(src) =>
      (match ReadInt(s.regs, src)
       case Some(v) => Skip(s.(world := host.printWord(v, s.world)))
       case None => Stuck)
    case Jump(t) => Running(s.(pc := t))
    case BranchIfFalse(c, t) =>
      (match ReadInt(s.regs, c)
       case Some(v) => Running(s.(pc := if v == 0 then t else s.pc + 1))
       case None => Stuck)
    case Return(Some((r, ty))) =>
      (match Read(s.regs, r, ty)
       case Some(v) => Returned(Some(v), s.world)
       case None => Stuck)
    case Return(None) => Returned(MainResult(f.name), s.world)
    case Ignored => Skip(s)
  }

  function Run<W>(host: Host<W>, env: Env, f: Function, s: State<W>, steps: nat): Outcome<W>
    decreases steps
  {
    if steps == 0 then Running(s)
    else match Step(host, env, f, s)
      case Running(s') => Run(host, env, f, s', steps - 1)
      case other => other
  }
}
