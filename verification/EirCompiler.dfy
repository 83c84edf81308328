/** The lowering of an E-IR function to a block graph
    (crates/eronom-cranelift/src/lib.rs, compile_function_body), for builds without the HTTP
    server, and the proof that the graph runs as the interpreter does. */
module EirCompiler {
  import opened MachineWords
  import opened Options
  import E = Eir
  import opened BlockGraph
  import M = Emission

  function IntVar(r: nat): Var { 2*r }

  function FloatVar(r: nat): Var { 2*r + 1 }

  function RegVar(r: nat, ty: E.EirType): Var
  {
    if ty == E.TF64 then FloatVar(r) else IntVar(r)
  }

  // ---------------------------------------------------------------- what the compiler accepts

  ghost predicate RegsOk(f: E.Function, inst: E.Inst)
  {
    match inst
    case ConstI64(d, _) => d < f.regCount
    case ConstF64(d, _) => d < f.regCount
    case ConstBool(d, _) => d < f.regCount
    case ConstNull(d) => d < f.regCount
    case ConstString(d, _) => d < f.regCount
    case ConstFuncPtr(d, _) => d < f.regCount
    case Move(d, s, _) => d < f.regCount && s < f.regCount
    case Binary(d, _, _, l, r) => d < f.regCount && l < f.regCount && r < f.regCount
    case Unary(d, _, _, s) => d < f.regCount && s < f.regCount
    case DefineGlobal(_, s) => s < f.regCount
    case GetGlobal(d, _) => d < f.regCount
    case Call(d, _, args, _) => d < f.regCount && forall a :: a in args ==> a < f.regCount
    case Print(s) => s < f.regCount
    case Jump(t) => t < |f.code|
    case BranchIfFalse(c, t) => c < f.regCount && t < |f.code|
    case Return(v) => v.Some? ==> v.value.0 < f.regCount
    case Ignored => true
  }

  // A call names the result type its callee is declared with.
  ghost predicate CallOk(env: E.Env, inst: E.Inst)
  {
    inst.Call? && inst.callee in env.functions && env.functions[inst.callee] != E.TVoid ==>
      ((env.functions[inst.callee] == E.TF64) <==> (inst.retTy == E.TF64))
  }

  function ParamCount(f: E.Function): nat
  {
    if f.arity <= |f.paramTypes| then f.arity else |f.paramTypes|
  }

  ghost predicate WellFormed(env: E.Env, f: E.Function)
  {
    && ParamCount(f) <= f.regCount
    && forall pc :: 0 <= pc < |f.code| ==> RegsOk(f, f.code[pc]) && CallOk(env, f.code[pc])
  }

  // ---------------------------------------------------------------- lowering one instruction

  predicate IsControl(inst: E.Inst)
  {
    inst.Jump? || inst.BranchIfFalse? || inst.Return?
  }

  function IntInst(d: Var, op: BinaryOp, l: Var, r: Var): Inst
  {
    match op
    case Add => IAdd(d, l, r)
    case Sub => ISub(d, l, r)
    case Mul => IMul(d, l, r)
    case Div => SDiv(d, l, r)
    case Mod => SRem(d, l, r)
    case Lt => ICmp(d, SignedLessThan, l, r)
    case Le => ICmp(d, SignedLessThanOrEqual, l, r)
    case Gt => ICmp(d, SignedGreaterThan, l, r)
    case Ge => ICmp(d, SignedGreaterThanOrEqual, l, r)
    case Eq => ICmp(d, Equal, l, r)
    case Ne => ICmp(d, NotEqual, l, r)
    case _ => BitInst(d, op, l, r)
  }

  // The code of a floating-point operation; any operator without a float form becomes an addition.
  function FloatInstOf(d: nat, op: BinaryOp, l: Var, r: Var): Inst
  {
    match op
    case Add => FloatInst(FloatVar(d), Add, l, r)
    case Sub => FloatInst(FloatVar(d), Sub, l, r)
    case Mul => FloatInst(FloatVar(d), Mul, l, r)
    case Div => FloatInst(FloatVar(d), Div, l, r)
    case _ => if IsCompare(op) then FCmp(IntVar(d), op, l, r) else FloatInst(FloatVar(d), Add, l, r)
  }

  // The code of an instruction that falls through; None when it gets no code.
  function Lower(env: E.Env, inst: E.Inst): Option<Inst>
    requires !IsControl(inst)
  {
    match inst
    case ConstI64(d, v) => Some(IConst(IntVar(d), v))
    case ConstF64(d, v) => Some(FConst(FloatVar(d), v))
    case ConstBool(d, b) => Some(IConst(IntVar(d), if b then 1 else 0))
    case ConstNull(d) => Some(IConst(IntVar(d), 0))
    case ConstString(d, t) => if t in env.strings then Some(StringAddr(IntVar(d), t)) else None
    case ConstFuncPtr(d, sym) => if sym in env.functions then Some(FuncAddr(IntVar(d), sym)) else None
    case Move(d, s, ty) => Some(CopyVar(RegVar(d, ty), RegVar(s, ty)))
    case Binary(d, op, ty, l, r) =>
      if ty == E.TF64 then Some(FloatInstOf(d, op, FloatVar(l), FloatVar(r)))
      else Some(IntInst(IntVar(d), op, IntVar(l), IntVar(r)))
    case Unary(d, op, ty, s) =>
      if ty == E.TF64 then Some(if op == Neg then FNeg(FloatVar(d), FloatVar(s)) else CopyVar(FloatVar(d), FloatVar(s)))
      else (match op
            case Neg => Some(INeg(IntVar(d), IntVar(s)))
            case BitNot => Some(BNot(IntVar(d), IntVar(s)))
            case Not => Some(IsZero(IntVar(d), IntVar(s))))
    case DefineGlobal(name, s) => if name in env.globals then Some(StoreGlobal(name, IntVar(s))) else None
    case GetGlobal(d, name) =>
      (match E.BuiltinTag(name)
       case Some(tag) => Some(IConst(IntVar(d), tag))
       case None => if name in env.globals then Some(LoadGlobal(IntVar(d), name)) else Some(IConst(IntVar(d), 0)))
    case Call(d, callee, args, retTy) =>
      if callee !in env.functions then None
      else
        var ret := if env.functions[callee] == E.TVoid then None else Some(RegVar(d, retTy));
        Some(CallInst(ret, callee, seq(|args|, i requires 0 <= i < |args| => V(IntVar(args[i]))), retTy == E.TF64))
    case Print(s) => Some(CallPrint(IntVar(s)))
    case Ignored => None
  }

  // Operators whose float form is an operation of its own.
  predicate HasFloatForm(op: BinaryOp)
  {
    op in {Add, Sub, Mul, Div, BinaryOp.Eq, BinaryOp.Ne, BinaryOp.Lt, BinaryOp.Le, BinaryOp.Gt, BinaryOp.Ge}
  }

  predicate Supported(inst: E.Inst)
  {
    && (inst.Binary? && inst.ty == E.TF64 ==> HasFloatForm(inst.op))
    && (inst.Unary? && inst.ty == E.TF64 ==> inst.uop == Neg)
  }

  // ---------------------------------------------------------------- registers and variables

  // Variable 2r carries register r while it holds a word, variable 2r+1 while it holds a float.
  ghost predicate CarriesAt(regs: map<nat, Val>, vars: map<Var, Val>, r: nat)
    requires r in regs
  {
    var v := if regs[r].I? then IntVar(r) else FloatVar(r);
    v in vars && vars[v] == regs[r]
  }

  ghost predicate Carries(regs: map<nat, Val>, vars: map<Var, Val>)
  {
    forall r {:trigger CarriesAt(regs, vars, r)} :: r in regs ==> CarriesAt(regs, vars, r)
  }

  lemma CarriesUpdate(regs: map<nat, Val>, vars: map<Var, Val>, d: nat, v: Val)
    requires Carries(regs, vars)
    ensures Carries(regs[d := v], vars[(if v.I? then IntVar(d) else FloatVar(d)) := v])
  {
    var regs', vars' := regs[d := v], vars[(if v.I? then IntVar(d) else FloatVar(d)) := v];
    forall r | r in regs' ensures CarriesAt(regs', vars', r) {
      assert r in regs ==> CarriesAt(regs, vars, r);
    }
  }

  lemma CarriesRead(regs: map<nat, Val>, vars: map<Var, Val>, r: nat)
    requires Carries(regs, vars)
    ensures E.ReadInt(regs, r).Some? ==> IntVal(vars, IntVar(r)) == E.ReadInt(regs, r)
    ensures E.ReadFloat(regs, r).Some? ==> FloatVal(vars, FloatVar(r)) == E.ReadFloat(regs, r)
  {
    assert r in regs ==> CarriesAt(regs, vars, r);
  }

  lemma {:induction false} CarriesArgs(regs: map<nat, Val>, vars: map<Var, Val>, args: seq<nat>)
    requires Carries(regs, vars) && E.ReadInts(regs, args).Some?
    ensures OperandVals(vars, seq(|args|, i requires 0 <= i < |args| => V(IntVar(args[i])))) == E.ReadInts(regs, args)
  {
    var os := seq(|args|, i requires 0 <= i < |args| => V(IntVar(args[i])));
    if args != [] {
      var rest := args[1..];
      CarriesArgs(regs, vars, rest);
      CarriesRead(regs, vars, args[0]);
      assert os[1..] == seq(|rest|, i requires 0 <= i < |rest| => V(IntVar(rest[i])));
      assert os[0] == V(IntVar(args[0]));
    }
  }

  ghost predicate Agree<W>(s: E.State<W>, d: Data<W>)
  {
    Carries(s.regs, d.vars) && s.world == d.world
  }

  // One lowered instruction does to the variables what the interpreter does to the registers.
  ghost predicate StraightAgrees<W>(host: Host<W>, env: E.Env, f: E.Function, s: E.State<W>, d: Data<W>)
    requires s.pc < |f.code| && !IsControl(f.code[s.pc])
  {
    match Lower(env, f.code[s.pc])
    case None =>
      var o := E.Step(host, env, f, s);
      o.Running? && o.state.pc == s.pc + 1 && Agree(o.state, d)
    case Some(inst) =>
      var e := ExecInst(host, inst, d);
      match E.Step(host, env, f, s)
      case Running(s') => s'.pc == s.pc + 1 && e.Done? && Agree(s', e.data)
      case Trapped => e.Trap?
      case _ => false
  }

  ghost predicate Ready<W>(host: Host<W>, env: E.Env, f: E.Function, s: E.State<W>, d: Data<W>)
  {
    && s.pc < |f.code| && !IsControl(f.code[s.pc])
    && Supported(f.code[s.pc]) && CallOk(env, f.code[s.pc])
    && Agree(s, d) && !E.Step(host, env, f, s).Stuck?
  }

  lemma ConstAgrees<W>(host: Host<W>, env: E.Env, f: E.Function, s: E.State<W>, d: Data<W>)
    requires Ready(host, env, f, s, d)
    requires var i := f.code[s.pc];
      i.ConstI64? || i.ConstF64? || i.ConstBool? || i.ConstNull? || i.ConstString? || i.ConstFuncPtr? || i.GetGlobal?
        || i.Ignored?
    ensures StraightAgrees(host, env, f, s, d)
  {
    hide Carries, E.IntOp, E.FloatOp, IntInst, FloatInstOf;
    var o := E.Step(host, env, f, s);
    var i := f.code[s.pc];
    if o.Running? && !i.Ignored? {
      if i.dest in o.state.regs {
        CarriesUpdate(s.regs, d.vars, i.dest, o.state.regs[i.dest]);
      }
    }
  }

  lemma MoveAgrees<W>(host: Host<W>, env: E.Env, f: E.Function, s: E.State<W>, d: Data<W>)
    requires Ready(host, env, f, s, d) && (f.code[s.pc].Move? || f.code[s.pc].Unary?)
    ensures StraightAgrees(host, env, f, s, d)
  {
    hide Carries, E.IntOp, E.FloatOp, E.BuiltinTag, IntInst, FloatInstOf;
    var i, o := f.code[s.pc], E.Step(host, env, f, s);
    CarriesRead(s.regs, d.vars, i.src);
    CarriesUpdate(s.regs, d.vars, i.dest, o.state.regs[i.dest]);
  }

  // The machine instruction chosen for an operator computes that operator.
  predicate IsComparison(op: BinaryOp)
  {
    op.Lt? || op.Le? || op.Gt? || op.Ge? || op.Eq? || op.Ne?
  }

  lemma ComparisonComputes<W>(host: Host<W>, op: BinaryOp, t: Var, l: Var, r: Var, d: Data<W>, x: i64, y: i64)
    requires IntVal(d.vars, l) == Some(x) && IntVal(d.vars, r) == Some(y) && IsComparison(op)
    ensures ExecInst(host, IntInst(t, op, l, r), d) ==
            match E.IntOp(host, op, x, y) case Some(v) => Def(d, t, I(v)) case None => Trap
  {
    hide Wrap, Quotient;
  }

  lemma ArithmeticComputes<W>(host: Host<W>, op: BinaryOp, t: Var, l: Var, r: Var, d: Data<W>, x: i64, y: i64)
    requires IntVal(d.vars, l) == Some(x) && IntVal(d.vars, r) == Some(y) && !IsComparison(op)
    ensures ExecInst(host, IntInst(t, op, l, r), d) ==
            match E.IntOp(host, op, x, y) case Some(v) => Def(d, t, I(v)) case None => Trap
  {
    hide Wrap, Quotient, Compare;
  }

  lemma IntInstComputes<W>(host: Host<W>, op: BinaryOp, t: Var, l: Var, r: Var, d: Data<W>, x: i64, y: i64)
    requires IntVal(d.vars, l) == Some(x) && IntVal(d.vars, r) == Some(y)
    ensures ExecInst(host, IntInst(t, op, l, r), d) ==
            match E.IntOp(host, op, x, y) case Some(v) => Def(d, t, I(v)) case None => Trap
  {
    hide ExecInst, IntInst, E.IntOp, Def;
    if IsComparison(op) {
      ComparisonComputes(host, op, t, l, r, d, x, y);
    } else {
      ArithmeticComputes(host, op, t, l, r, d, x, y);
    }
  }

  lemma FloatInstComputes<W>(host: Host<W>, op: BinaryOp, t: nat, l: Var, r: Var, d: Data<W>, x: F64, y: F64)
    requires HasFloatForm(op) && FloatVal(d.vars, l) == Some(x) && FloatVal(d.vars, r) == Some(y)
    ensures var v := E.FloatOp(host, op, x, y);
      ExecInst(host, FloatInstOf(t, op, l, r), d) == Def(d, if v.I? then IntVar(t) else FloatVar(t), v)
  {
  }

  lemma BinaryAgrees<W>(host: Host<W>, env: E.Env, f: E.Function, s: E.State<W>, d: Data<W>)
    requires Ready(host, env, f, s, d) && f.code[s.pc].Binary?
    ensures StraightAgrees(host, env, f, s, d)
  {
    hide Carries, ExecInst, IntInst, FloatInstOf, E.IntOp, E.FloatOp;
    var i, o := f.code[s.pc], E.Step(host, env, f, s);
    CarriesRead(s.regs, d.vars, i.left);
    CarriesRead(s.regs, d.vars, i.right);
    if i.ty == E.TF64 {
      FloatInstComputes(host, i.op, i.dest, FloatVar(i.left), FloatVar(i.right), d,
                        E.ReadFloat(s.regs, i.left).value, E.ReadFloat(s.regs, i.right).value);
    } else {
      IntInstComputes(host, i.op, IntVar(i.dest), IntVar(i.left), IntVar(i.right), d,
                      E.ReadInt(s.regs, i.left).value, E.ReadInt(s.regs, i.right).value);
    }
    if o.Running? {
      CarriesUpdate(s.regs, d.vars, i.dest, o.state.regs[i.dest]);
    }
  }

  lemma CallAgrees<W>(host: Host<W>, env: E.Env, f: E.Function, s: E.State<W>, d: Data<W>)
    requires Ready(host, env, f, s, d) && f.code[s.pc].Call?
    ensures StraightAgrees(host, env, f, s, d)
  {
    hide Carries, E.BuiltinTag, E.IntOp, E.FloatOp;
    var i, o := f.code[s.pc], E.Step(host, env, f, s);
    if i.callee in env.functions {
      CarriesArgs(s.regs, d.vars, i.args);
      if env.functions[i.callee] != E.TVoid {
        CarriesUpdate(s.regs, d.vars, i.dest, o.state.regs[i.dest]);
      }
    }
  }

  lemma EffectAgrees<W>(host: Host<W>, env: E.Env, f: E.Function, s: E.State<W>, d: Data<W>)
    requires Ready(host, env, f, s, d)
    requires f.code[s.pc].Print? || f.code[s.pc].DefineGlobal? || f.code[s.pc].Call?
    ensures StraightAgrees(host, env, f, s, d)
  {
    hide Carries, E.BuiltinTag, E.IntOp, E.FloatOp;
    if f.code[s.pc].Call? {
      hide StraightAgrees;
      CallAgrees(host, env, f, s, d);
    } else {
      CarriesRead(s.regs, d.vars, f.code[s.pc].src);
    }
  }

  lemma StraightStep<W>(host: Host<W>, env: E.Env, f: E.Function, s: E.State<W>, d: Data<W>)
    requires Ready(host, env, f, s, d)
    ensures StraightAgrees(host, env, f, s, d)
  {
    hide E.Step, ExecInst, Lower, Agree;
    match f.code[s.pc] {
      case Move(_, _, _) => MoveAgrees(host, env, f, s, d);
      case Unary(_, _, _, _) => MoveAgrees(host, env, f, s, d);
      case Binary(_, _, _, _, _) => BinaryAgrees(host, env, f, s, d);
      case Print(_) => EffectAgrees(host, env, f, s, d);
      case DefineGlobal(_, _) => EffectAgrees(host, env, f, s, d);
      case Call(_, _, _, _) => EffectAgrees(host, env, f, s, d);
      case _ => ConstAgrees(host, env, f, s, d);
    }
  }

  // ---------------------------------------------------------------- the program of a function

  function FinalTerm(f: E.Function): Terminator
  {
    if f.name == "main" then ReturnConst(0) else ReturnNothing
  }

  function ShapeOf(env: E.Env, f: E.Function, inst: E.Inst): M.Shape
  {
    match inst
    case Jump(t) => M.Goto(t)
    case BranchIfFalse(c, t) => M.BranchNext(Zero(IntVar(c)), t)
    case Return(Some((r, ty))) => M.Stop([], ReturnVar(RegVar(r, ty)))
    case Return(None) => M.Stop([], FinalTerm(f))
    case _ => M.Straight(match Lower(env, inst) case Some(i) => [i] case None => [])
  }

  function ProgramOf(env: E.Env, f: E.Function): M.Program
  {
    M.Program(seq(|f.code|, pc requires 0 <= pc < |f.code| => ShapeOf(env, f, f.code[pc])), M.Stop([], FinalTerm(f)))
  }

  // ---------------------------------------------------------------- the compiler

  ghost predicate VarsDeclared(f: E.Function, types: seq<ClifType>)
  {
    && |types| == 2 * f.regCount
    && forall r :: 0 <= r < f.regCount ==> types[IntVar(r)] == I64Type && types[FloatVar(r)] == F64Type
  }

  lemma BinaryWellTyped(env: E.Env, f: E.Function, types: seq<ClifType>, inst: E.Inst)
    requires VarsDeclared(f, types) && RegsOk(f, inst) && inst.Binary?
    ensures WellTyped(types, Lower(env, inst).value)
  {
  }

  lemma CallWellTyped(env: E.Env, f: E.Function, types: seq<ClifType>, inst: E.Inst)
    requires VarsDeclared(f, types) && RegsOk(f, inst) && CallOk(env, inst) && inst.Call?
      && inst.callee in env.functions
    ensures WellTyped(types, Lower(env, inst).value)
  {
    forall a | a in Lower(env, inst).value.args ensures a.V? ==> HasType(types, a.v, I64Type) {
      var i :| 0 <= i < |inst.args| && a == V(IntVar(inst.args[i]));
      assert inst.args[i] in inst.args;
    }
  }

  lemma LowerWellTyped(env: E.Env, f: E.Function, types: seq<ClifType>, inst: E.Inst)
    requires VarsDeclared(f, types) && RegsOk(f, inst) && CallOk(env, inst) && !IsControl(inst)
    requires Lower(env, inst).Some?
    ensures WellTyped(types, Lower(env, inst).value)
  {
    hide E.BuiltinTag;
    if inst.Call? {
      hide WellTyped;
      CallWellTyped(env, f, types, inst);
    } else if inst.Binary? {
      hide WellTyped;
      BinaryWellTyped(env, f, types, inst);
    } else {
      hide IntInst, FloatInstOf;
    }
  }

  lemma ProgramTyped(env: E.Env, f: E.Function, types: seq<ClifType>)
    requires VarsDeclared(f, types) && WellFormed(env, f)
    ensures M.ProgramOk(types, ProgramOf(env, f))
  {
    hide Lower, WellTyped, VarsDeclared;
    forall pc | 0 <= pc < |f.code| ensures M.ShapeOk(types, ShapeOf(env, f, f.code[pc]), pc, |f.code|) {
      assert RegsOk(f, f.code[pc]) && CallOk(env, f.code[pc]);
      if !IsControl(f.code[pc]) && Lower(env, f.code[pc]).Some? {
        LowerWellTyped(env, f, types, f.code[pc]);
      }
    }
  }

  method DeclareVars(builder: FunctionBuilder, f: E.Function)
    requires builder.varTypes == []
    modifies builder`varTypes
    ensures VarsDeclared(f, builder.varTypes)
  {
    for i := 0 to f.regCount
      invariant |builder.varTypes| == 2 * i
      invariant forall r :: 0 <= r < i ==>
        builder.varTypes[IntVar(r)] == I64Type && builder.varTypes[FloatVar(r)] == F64Type
    {
      var v := builder.DeclareVar(I64Type);
      var w := builder.DeclareVar(F64Type);
    }
  }

  function BranchTarget(inst: E.Inst): Option<nat>
  {
    match inst
    case Jump(t) => Some(t)
    case BranchIfFalse(_, t) => Some(t)
    case _ => None
  }

  // One block for each branch target.
  method CreateLabels(builder: FunctionBuilder, env: E.Env, f: E.Function) returns (labels: map<nat, BlockId>)
    requires builder.blocks == [] && WellFormed(env, f)
    modifies builder`blocks
    ensures M.LabelsCover(ProgramOf(env, f), labels) && forall t :: t in labels ==> t < |f.code|
    ensures forall t :: t in labels ==> labels[t] < |builder.blocks|
    ensures forall t, u :: t in labels && u in labels && t != u ==> labels[t] != labels[u]
    ensures forall b :: 0 <= b < |builder.blocks| ==>
      builder.blocks[b] == Block([], None, false) && M.Awaited(labels, 0, b)
  {
    labels := map[];
    for k := 0 to |f.code|
      invariant forall pc :: 0 <= pc < k && BranchTarget(f.code[pc]).Some? ==> BranchTarget(f.code[pc]).value in labels
      invariant forall t :: t in labels ==> t < |f.code|
      invariant forall t :: t in labels ==> labels[t] < |builder.blocks|
      invariant forall t, u :: t in labels && u in labels && t != u ==> labels[t] != labels[u]
      invariant forall b :: 0 <= b < |builder.blocks| ==>
        builder.blocks[b] == Block([], None, false) && M.Awaited(labels, 0, b)
    {
      assert RegsOk(f, f.code[k]);
      match BranchTarget(f.code[k])
      case Some(t) =>
        if t !in labels {
          ghost var before := labels;
          var b := builder.CreateBlock();
          labels := labels[t := b];
          forall c | 0 <= c < |builder.blocks| ensures M.Awaited(labels, 0, c) {
            if c == b {
              assert labels[t] == c;
            } else {
              assert M.Awaited(before, 0, c);
              var u :| u in before && before[u] == c;
              assert labels[u] == c;
            }
          }
        }
      case None =>
    }
  }

  function ParamInst(f: E.Function, i: nat): Inst
    requires i < ParamCount(f)
  {
    BindParam(RegVar(i, f.paramTypes[i]), i)
  }

  function ParamCode(f: E.Function): seq<Inst>
  {
    seq(ParamCount(f), i requires 0 <= i < ParamCount(f) => ParamInst(f, i))
  }

  ghost predicate Compiled(env: E.Env, f: E.Function, L: M.Layout, entry: BlockId)
  {
    && M.Laid(ProgramOf(env, f), L)
    && M.CodeAt(L.blocks, M.Pos(entry, 0), ParamCode(f))
    && M.FlowsTo(ProgramOf(env, f), L, M.Pos(entry, ParamCount(f)), 0)
    && forall b :: 0 <= b < |L.blocks| ==> L.blocks[b].entered && L.blocks[b].term.Some?
  }

  lemma AllEntered(env: E.Env, f: E.Function, L: M.Layout)
    requires M.Laid(ProgramOf(env, f), L) && forall t :: t in L.labels ==> t < |f.code|
    ensures forall b :: 0 <= b < |L.blocks| ==> L.blocks[b].entered && L.blocks[b].term.Some?
  {
    hide M.AllPlaced, M.LabelsCover, ShapeOf;
  }

  method CompileFunctionBody(builder: FunctionBuilder, env: E.Env, f: E.Function)
    returns (entry: BlockId, ghost L: M.Layout)
    requires builder.blocks == [] && builder.current == None && builder.varTypes == []
    requires WellFormed(env, f)
    modifies builder
    ensures L.blocks == builder.blocks && Compiled(env, f, L, entry)
  {
    hide RegsOk, CallOk, Lower, ShapeOf, M.Laid;
    DeclareVars(builder, f);
    ProgramTyped(env, f, builder.varTypes);
    var labels := CreateLabels(builder, env, f);
    entry := builder.CreateBlock();
    builder.SwitchToBlock(entry);
    M.Append(builder, labels, 0, ParamCode(f));
    ghost var before := builder.blocks;
    L := M.EmitBody(builder, labels, ProgramOf(env, f));
    M.CodeKept(before, builder.blocks, M.Pos(entry, 0), ParamCode(f));
    AllEntered(env, f, L);
  }

  // ---------------------------------------------------------------- interpreter and program in lockstep

  ghost predicate AllSupported(f: E.Function)
  {
    forall pc :: 0 <= pc < |f.code| ==> Supported(f.code[pc])
  }

  // The two outcomes of a step or a run say the same.
  ghost predicate SameOutcome<W>(o: E.Outcome<W>, r: M.Result<W>)
  {
    match o
    case Running(s) => r.Next? && r.pc == s.pc && Agree(s, r.data)
    case Returned(v, w) => r.Ended? && r.value == v && r.data.world == w
    case Trapped => r.TrapEnd?
    case Stuck => true
  }

  lemma ExecOne<W>(host: Host<W>, inst: Inst, d: Data<W>)
    ensures ExecCode(host, [inst], d) == ExecInst(host, inst, d)
  {
    hide ExecInst;
    if ExecInst(host, inst, d).Done? {
      assert ExecCode(host, [], ExecInst(host, inst, d).data) == ExecInst(host, inst, d);
    }
  }

  lemma ControlAgrees<W>(host: Host<W>, env: E.Env, f: E.Function, s: E.State<W>, d: Data<W>)
    requires Agree(s, d) && s.pc < |f.code| && IsControl(f.code[s.pc]) && RegsOk(f, f.code[s.pc])
    ensures SameOutcome(E.Step(host, env, f, s), M.Step(host, ProgramOf(env, f), s.pc, d))
    ensures E.Step(host, env, f, s).Running? ==> E.Step(host, env, f, s).state.pc <= |f.code|
  {
    hide Carries, ExecInst, Lower;
    assert ProgramOf(env, f).At(s.pc) == ShapeOf(env, f, f.code[s.pc]);
    match f.code[s.pc] {
      case Jump(t) =>
      case BranchIfFalse(c, t) => CarriesRead(s.regs, d.vars, c);
      case Return(Some((r, ty))) => CarriesRead(s.regs, d.vars, r);
      case Return(None) =>
    }
  }

  lemma StraightSame<W>(host: Host<W>, env: E.Env, f: E.Function, s: E.State<W>, d: Data<W>)
    requires Ready(host, env, f, s, d)
    ensures SameOutcome(E.Step(host, env, f, s), M.Step(host, ProgramOf(env, f), s.pc, d))
    ensures E.Step(host, env, f, s).Running? ==> E.Step(host, env, f, s).state.pc <= |f.code|
  {
    hide Lower, E.Step, ExecInst, Agree, Supported, CallOk;
    StraightStep(host, env, f, s, d);
    assert ProgramOf(env, f).At(s.pc) == ShapeOf(env, f, f.code[s.pc]);
    match Lower(env, f.code[s.pc]) {
      case Some(inst) => ExecOne(host, inst, d);
      case None => assert ExecCode(host, [], d) == Done(d);
    }
  }

  lemma StepAgrees<W>(host: Host<W>, env: E.Env, f: E.Function, s: E.State<W>, d: Data<W>)
    requires WellFormed(env, f) && AllSupported(f) && Agree(s, d) && s.pc <= |f.code|
    ensures SameOutcome(E.Step(host, env, f, s), M.Step(host, ProgramOf(env, f), s.pc, d))
    ensures E.Step(host, env, f, s).Running? ==> E.Step(host, env, f, s).state.pc <= |f.code|
  {
    if s.pc < |f.code| {
      assert RegsOk(f, f.code[s.pc]) && CallOk(env, f.code[s.pc]);
      assert ProgramOf(env, f).At(s.pc) == ShapeOf(env, f, f.code[s.pc]);
      if IsControl(f.code[s.pc]) {
        ControlAgrees(host, env, f, s, d);
      } else if !E.Step(host, env, f, s).Stuck? {
        StraightSame(host, env, f, s, d);
      }
    }
  }

  lemma {:induction false} RunAgrees<W>(host: Host<W>, env: E.Env, f: E.Function, s: E.State<W>, d: Data<W>, m: nat)
    requires WellFormed(env, f) && AllSupported(f) && Agree(s, d) && s.pc <= |f.code|
    ensures SameOutcome(E.Run(host, env, f, s, m), M.Run(host, ProgramOf(env, f), s.pc, d, m))
    decreases m
  {
    hide E.Step, M.Step, Agree, WellFormed, AllSupported, ProgramOf;
    if m > 0 {
      StepAgrees(host, env, f, s, d);
      match E.Step(host, env, f, s) {
        case Running(s') => RunAgrees(host, env, f, s', M.Step(host, ProgramOf(env, f), s.pc, d).data, m - 1);
        case _ =>
      }
    }
  }

  // ---------------------------------------------------------------- whole functions

  ghost predicate ArgsFit(f: E.Function, args: seq<Val>)
  {
    && |args| >= ParamCount(f)
    && forall i :: 0 <= i < ParamCount(f) ==> (args[i].F? <==> f.paramTypes[i] == E.TF64)
  }

  ghost function FirstRegs(args: seq<Val>, n: nat): map<nat, Val>
    requires n <= |args|
  {
    map i: nat | i < n :: args[i]
  }

  // The interpreter starts with the arguments in the first registers.
  ghost function InitialState<W>(f: E.Function, args: seq<Val>, world: W): E.State<W>
    requires |args| >= ParamCount(f)
  {
    E.State(0, FirstRegs(args, ParamCount(f)), world)
  }

  // The graph starts at its entry block with no variable defined.
  ghost predicate AtEntry<W>(c: Config<W>, entry: BlockId, args: seq<Val>)
  {
    c.block == entry && c.index == 0 && c.data.vars == map[] && c.data.params == args
  }

  lemma {:induction false} ParamsBound<W>(host: Host<W>, f: E.Function, args: seq<Val>, d: Data<W>, i: nat)
    requires ArgsFit(f, args) && d.params == args && i <= ParamCount(f) && Carries(FirstRegs(args, i), d.vars)
    ensures
      var e := ExecCode(host, ParamCode(f)[i..], d);
      e.Done? && e.data.world == d.world && Carries(FirstRegs(args, ParamCount(f)), e.data.vars)
    decreases ParamCount(f) - i
  {
    hide Carries;
    if i < ParamCount(f) {
      var code := ParamCode(f)[i..];
      assert code[0] == ParamInst(f, i) && code[1..] == ParamCode(f)[i + 1..];
      CarriesUpdate(FirstRegs(args, i), d.vars, i, args[i]);
      assert FirstRegs(args, i)[i := args[i]] == FirstRegs(args, i + 1);
      ParamsBound(host, f, args, d.(vars := d.vars[RegVar(i, f.paramTypes[i]) := args[i]]), i + 1);
    }
  }

  // The entry code leads to pc 0 with the arguments in place.
  lemma Started<W>(host: Host<W>, env: E.Env, f: E.Function, L: M.Layout, entry: BlockId, args: seq<Val>, c: Config<W>)
    returns (n: nat)
    requires Compiled(env, f, L, entry) && ArgsFit(f, args) && AtEntry(c, entry, args)
    ensures
      var o := Run(host, L.blocks, c, n);
      && o.Running? && Agree(InitialState(f, args, c.data.world), o.config.data)
      && M.AtPc(ProgramOf(env, f), L, M.Pos(o.config.block, o.config.index), 0)
  {
    hide Step, ExecInst, M.Laid, M.FlowsTo, M.AtPc, ProgramOf;
    ParamsBound(host, f, args, c.data, 0);
    assert ParamCode(f)[0..] == ParamCode(f);
    CodeRuns(host, L.blocks, c, ParamCode(f));
    var c' := Run(host, L.blocks, c, ParamCount(f)).config;
    var k := M.Settle(host, ProgramOf(env, f), L, c', 0);
    RunAdds(host, L.blocks, c, ParamCount(f), k);
    n := ParamCount(f) + k;
  }

  ghost predicate SameEnd<W>(o: E.Outcome<W>, t: Outcome<W>)
  {
    match o
    case Returned(v, w) => t.Returned? && t.value == v && t.data.world == w
    case Trapped => t.Trapped?
    case _ => false
  }

  // Whatever the interpreter ends with, the compiled graph ends with.
  lemma ResultKept<W>(host: Host<W>, types: seq<ClifType>, env: E.Env, f: E.Function, L: M.Layout, entry: BlockId,
      args: seq<Val>, c: Config<W>, m: nat)
    returns (n: nat)
    requires Compiled(env, f, L, entry) && VarsDeclared(f, types) && WellFormed(env, f) && AllSupported(f)
    requires ArgsFit(f, args) && AtEntry(c, entry, args)
    requires var o := E.Run(host, env, f, InitialState(f, args, c.data.world), m); o.Returned? || o.Trapped?
    ensures SameEnd(E.Run(host, env, f, InitialState(f, args, c.data.world), m), Run(host, L.blocks, c, n))
  {
    hide Step, E.Step, M.Step, Agree, M.Laid, M.AtPc, ProgramOf, WellFormed, AllSupported, M.ProgramOk, VarsDeclared;
    var k := Started(host, env, f, L, entry, args, c);
    ProgramTyped(env, f, types);
    var c' := Run(host, L.blocks, c, k).config;
    RunAgrees(host, env, f, InitialState(f, args, c.data.world), c'.data, m);
    var r := M.ResultKept(host, types, ProgramOf(env, f), L, c', 0, m);
    RunAdds(host, L.blocks, c, k, r);
    n := k + r;
  }

  // Whatever the compiled graph ends with, an interpreter that never gets stuck ends with too: so
  // the graph runs for ever when the interpreter does, and never breaks.
  lemma ResultReflected<W>(host: Host<W>, types: seq<ClifType>, env: E.Env, f: E.Function, L: M.Layout, entry: BlockId,
      args: seq<Val>, c: Config<W>, n: nat)
    returns (m: nat)
    requires Compiled(env, f, L, entry) && VarsDeclared(f, types) && WellFormed(env, f) && AllSupported(f)
    requires ArgsFit(f, args) && AtEntry(c, entry, args)
    requires forall k: nat :: !E.Run(host, env, f, InitialState(f, args, c.data.world), k).Stuck?
    requires !Run(host, L.blocks, c, n).Running?
    ensures SameEnd(E.Run(host, env, f, InitialState(f, args, c.data.world), m), Run(host, L.blocks, c, n))
  {
    hide Step, E.Step, M.Step, Agree, M.Laid, M.AtPc, ProgramOf, WellFormed, AllSupported, M.ProgramOk, VarsDeclared;
    var k := Started(host, env, f, L, entry, args, c);
    ProgramTyped(env, f, types);
    var c' := Run(host, L.blocks, c, k).config;
    if n < k {
      RunEnds(host, L.blocks, c, n, k);
    }
    RunAdds(host, L.blocks, c, k, n - k);
    m := M.ResultReflected(host, types, ProgramOf(env, f), L, c', 0, n - k);
    RunAgrees(host, env, f, InitialState(f, args, c.data.world), c'.data, m);
  }

  // Code that the compiler skipped is never reached.
  lemma SkippedIsUnreachable<W>(host: Host<W>, types: seq<ClifType>, env: E.Env, f: E.Function, L: M.Layout,
      entry: BlockId, args: seq<Val>, world: W, m: nat)
    requires Compiled(env, f, L, entry) && VarsDeclared(f, types) && WellFormed(env, f) && AllSupported(f)
      && ArgsFit(f, args)
    requires E.Run(host, env, f, InitialState(f, args, world), m).Running?
    ensures var pc := E.Run(host, env, f, InitialState(f, args, world), m).state.pc; pc == |f.code| || pc in L.start
  {
    hide Step, E.Step, M.Step, Agree, M.Laid, M.AtPc, WellFormed, AllSupported, M.ProgramOk, VarsDeclared;
    var c := Config(entry, 0, Data(map[], args, map[], map[], world));
    var k := Started(host, env, f, L, entry, args, c);
    ProgramTyped(env, f, types);
    var c' := Run(host, L.blocks, c, k).config;
    RunAgrees(host, env, f, InitialState(f, args, world), c'.data, m);
    M.SkippedIsUnreachable(host, types, ProgramOf(env, f), L, c', 0, m);
  }

  // ---------------------------------------------------------------- operators without a float form

  ghost predicate FloatFormRightAt(host: Host<int>, op: BinaryOp, x: F64, y: F64)
  {
    var d := Data(map[FloatVar(1) := F(x), FloatVar(2) := F(y)], [], map[], map[], 0);
    var v := E.FloatOp(host, op, x, y);
    ExecInst(host, FloatInstOf(0, op, FloatVar(1), FloatVar(2)), d)
      == Def(d, if v.I? then IntVar(0) else FloatVar(0), v)
  }

  // The code of a float operator leaves the operator's value behind, whatever the host computes.
  ghost predicate FloatFormRight(op: BinaryOp)
  {
    forall host: Host<int>, x: F64, y: F64 :: FloatFormRightAt(host, op, x, y)
  }

  // A host on which every operation of `op` differs from an addition.
  function Distinguishing(): Host<int>
  {
    Host((op, x, y) => if op == Add then 0 else 1, (op, x, y) => false, (op, x) => x, (op, x, y) => x, x => x, s => 0,
      s => 0,
         (s, w) => 0, (s, x, w) => w, (x, w) => w, (s, xs, w) => (0, w), (s, xs, w) => (0, w), (s, xs, w) => w)
  }

  lemma CompiledAsAdd(d: nat, op: BinaryOp, l: Var, r: Var)
    requires !HasFloatForm(op)
    ensures FloatInstOf(d, op, l, r) == FloatInstOf(d, Add, l, r)
  {
  }

  lemma NoFloatForm(op: BinaryOp)
    requires !HasFloatForm(op)
    ensures !FloatFormRightAt(Distinguishing(), op, 0, 0)
  {
    hide ExecInst, FloatInstOf;
    var h, vars := Distinguishing(), map[FloatVar(1) := F(0), FloatVar(2) := F(0)];
    var d := Data(vars, [], map[], map[], 0);
    CompiledAsAdd(0, op, FloatVar(1), FloatVar(2));
    FloatInstComputes(h, Add, 0, FloatVar(1), FloatVar(2), d, 0, 0);
    assert h.fop(Add, 0, 0) == 0 && h.fop(op, 0, 0) == 1;
    assert vars[FloatVar(0) := F(0)][FloatVar(0)] != vars[FloatVar(0) := F(1)][FloatVar(0)];
  }

  lemma FloatFormIsRight(host: Host<int>, op: BinaryOp, x: F64, y: F64)
    requires HasFloatForm(op)
    ensures FloatFormRightAt(host, op, x, y)
  {
    hide ExecInst, FloatInstOf;
    var d := Data(map[FloatVar(1) := F(x), FloatVar(2) := F(y)], [], map[], map[], 0);
    FloatInstComputes(host, op, 0, FloatVar(1), FloatVar(2), d, x, y);
  }

  // Exactly the arithmetic and comparison operators survive on floats: remainder, bit and shift
  // operators are compiled to an addition.
  lemma FloatFormExact(op: BinaryOp)
    ensures FloatFormRight(op) <==> HasFloatForm(op)
  {
    hide FloatFormRightAt;
    if HasFloatForm(op) {
      forall host: Host<int>, x: F64, y: F64 ensures FloatFormRightAt(host, op, x, y) {
        FloatFormIsRight(host, op, x, y);
      }
    } else {
      NoFloatForm(op);
    }
  }

  // The code of a unary operator on floats.
  function FloatUnaryOf(op: UnaryOp): Option<Inst>
  {
    Lower(E.Env(map[], {}, {}), E.Unary(0, op, E.TF64, 1))
  }

  ghost predicate UnaryFormRightAt(host: Host<int>, op: UnaryOp, x: F64)
  {
    var d := Data(map[FloatVar(1) := F(x)], [], map[], map[], 0);
    FloatUnaryOf(op).Some? && ExecInst(host, FloatUnaryOf(op).value, d) == Def(d, FloatVar(0), F(host.funary(op, x)))
  }

  // It leaves the operator's value behind, whatever the host computes.
  ghost predicate UnaryFormRight(op: UnaryOp)
  {
    forall host: Host<int>, x: F64 :: UnaryFormRightAt(host, op, x)
  }

  // A host on which no unary operation leaves a float as it is.
  function Changing(): Host<int>
  {
    Distinguishing().(funary := (op, x) => if x == 0 then 1 else 0)
  }

  lemma NegForm(host: Host<int>, x: F64)
    ensures UnaryFormRightAt(host, Neg, x)
  {
    assert FloatUnaryOf(Neg) == Some(FNeg(FloatVar(0), FloatVar(1)));
  }

  lemma CopyExec(host: Host<int>, t: Var, f: Var, d: Data<int>)
    requires f in d.vars
    ensures ExecInst(host, CopyVar(t, f), d) == Def(d, t, d.vars[f])
  {
  }

  lemma CopyForm(op: UnaryOp, host: Host<int>)
    requires op != Neg && host.funary(op, 0) == 1
    ensures !UnaryFormRightAt(host, op, 0)
  {
    assert FloatUnaryOf(op) == Some(CopyVar(FloatVar(0), FloatVar(1)));
    hide FloatUnaryOf, ExecInst;
    var vars := map[FloatVar(1) := F(0)];
    CopyExec(host, FloatVar(0), FloatVar(1), Data(vars, [], map[], map[], 0));
    assert vars[FloatVar(0) := F(0)][FloatVar(0)] != vars[FloatVar(0) := F(1)][FloatVar(0)];
  }

  // On floats only the negation survives: the other unary operators are compiled to a copy.
  lemma UnaryFormExact(op: UnaryOp)
    ensures UnaryFormRight(op) <==> op == Neg
  {
    hide UnaryFormRightAt;
    if op == Neg {
      forall host: Host<int>, x: F64 ensures UnaryFormRightAt(host, op, x) {
        NegForm(host, x);
      }
    } else {
      CopyForm(op, Changing());
    }
  }
}
