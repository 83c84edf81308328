/** The resumable native code of a bytecode function
    (crates/eronom-cranelift/src/jit.rs, compile_function): registers live in variables, a call
    or an await spills them to the caller's slots and returns, and the function is entered again
    at the pc after it.  Inline array push and pop and direct self-recursion are not modelled. */
module JitCompiler {
  import opened MachineWords
  import opened Options
  import B = Bytecode
  import opened BlockGraph
  import M = Emission

  // ---------------------------------------------------------------- measuring a function

  function Max(x: nat, y: nat): nat { if x >= y then x else y }

  method CalculateNumRegs(f: B.Function) returns (n: nat)
    ensures B.Fits(f, n) && n >= f.arity && n >= 32
  {
    var maxReg := 0;
    for pc := 0 to |f.code|
      invariant forall i :: 0 <= i < pc ==> B.RegsBelow(f.code[i], maxReg + 1)
    {
      var inst := f.code[pc];
      maxReg := Max(Max(Max(maxReg, inst.ra()), inst.rb()), inst.rc());
      if inst.op == B.OpCode.Call || inst.op == B.OpCode.MakeArray {
        maxReg := Max(maxReg, inst.rb() + inst.n());
      } else if inst.op == B.OpCode.MakeObject {
        maxReg := Max(maxReg, inst.rb() + inst.n() * 2);
      }
    }
    n := Max(Max(maxReg + 1, f.arity), 32);
  }

  predicate Suspends(inst: B.Instruction)
  {
    inst.op == B.OpCode.Call || inst.op == B.OpCode.Await
  }

  // The pcs at which the function can be entered again: those after a call or an await.
  predicate IsResumeTarget(f: B.Function, pc: nat)
  {
    0 < pc < |f.code| && Suspends(f.code[pc - 1])
  }

  ghost predicate CanResume(f: B.Function)
  {
    exists pc: nat :: IsResumeTarget(f, pc)
  }

  method CalculateResumeTargets(f: B.Function) returns (targets: seq<bool>)
    ensures |targets| == |f.code|
    ensures forall pc :: 0 <= pc < |targets| ==> (targets[pc] <==> IsResumeTarget(f, pc))
  {
    targets := seq(|f.code|, i => false);
    for pc := 0 to |f.code|
      invariant |targets| == |f.code|
      invariant forall i :: 0 <= i < |targets| ==> (targets[i] <==> IsResumeTarget(f, i) && i <= pc)
    {
      if Suspends(f.code[pc]) && pc + 1 < |targets| {
        targets := targets[pc + 1 := true];
      }
    }
  }

  // ---------------------------------------------------------------- the program of a function

  // Variable r carries register r; one more variable carries the pc to start at.
  function StartVar(n: nat): Var { n }

  function SpillFrom(i: nat, n: nat): seq<Inst>
    decreases n - i
  {
    if i >= n then [] else [StoreSlot(i, i)] + SpillFrom(i + 1, n)
  }

  function Helper(inst: B.Instruction, args: seq<Operand>): seq<Inst>
  {
    [CallInst(Some(inst.ra()), B.HelperName(inst.op), args, false)]
  }

  function HelperVoid(inst: B.Instruction, args: seq<Operand>): seq<Inst>
  {
    [CallInst(None, B.HelperName(inst.op), args, false)]
  }

  // What a helper call passes: registers and constants, in the interpreter's order.
  function HelperOperands(f: B.Function, inst: B.Instruction): seq<Operand>
    requires B.ConstantsOk(f, inst)
  {
    match inst.op
    case DefineGlobal => [K(f.constants[inst.n()]), V(inst.ra())]
    case GetGlobal => [K(f.constants[inst.n()])]
    case SetGlobal => [V(inst.ra()), K(f.constants[inst.n()])]
    case GetProperty => [V(inst.rb()), K(f.constants[inst.n()])]
    case SetProperty => [V(inst.ra()), V(inst.rc()), K(f.constants[inst.n()])]
    case SetIndex => [V(inst.ra()), V(inst.rb()), V(inst.rc())]
    case DefineStruct => [K(f.constants[inst.n()]), K(f.constants[inst.ra()]), K(f.constants[inst.rb()])]
    case _ => if B.IsUnary(inst.op) then [V(inst.rb())] else [V(inst.rb()), V(inst.rc())]
  }

  // Helpers whose result the code drops.
  predicate ReturnsNothing(op: B.OpCode)
  {
    op.DefineGlobal? || op.SetGlobal? || op.SetProperty? || op.SetIndex? || op.DefineStruct?
  }

  // The code of an instruction that neither jumps nor leaves the function.
  function Lower(f: B.Function, inst: B.Instruction): seq<Inst>
    requires B.ConstantsOk(f, inst)
  {
    match inst.op
    case LoadConst => [IConst(inst.ra(), f.constants[inst.n()])]
    case LoadNull => [IConst(inst.ra(), B.TAG_NULL)]
    case LoadBool => [IConst(inst.ra(), if inst.b != 0 then B.TAG_TRUE else B.TAG_FALSE)]
    case Move => [CopyVar(inst.ra(), inst.rb())]
    case MakeArray =>
      SpillFrom(inst.rb(), inst.rb() + inst.n()) + [CallSlots(inst.ra(), B.HelperName(inst.op), inst.rb(), inst.n())]
    case MakeObject =>
      SpillFrom(inst.rb(), inst.rb() + 2 * inst.n())
        + [CallSlots(inst.ra(), B.HelperName(inst.op), inst.rb(), 2 * inst.n())]
    case _ =>
      if ReturnsNothing(inst.op) then HelperVoid(inst, HelperOperands(f, inst))
        else Helper(inst, HelperOperands(f, inst))
  }

  const STATUS_CALL: i64 := 0

  const STATUS_RETURN: i64 := 1

  const STATUS_SUSPEND: i64 := 3

  const STATUS_THROW: i64 := -1

  function ShapeOf(f: B.Function, n: nat, pc: nat): M.Shape
    requires pc < |f.code| < 0x8000_0000 && B.ConstantsOk(f, f.code[pc]) && B.TargetOk(f, pc, f.code[pc])
  {
    var inst := f.code[pc];
    match inst.op
    case Jump => M.Goto(B.Target(pc, inst).value)
    case Loop => M.Goto(B.Target(pc, inst).value)
    case JumpIfFalse => M.BranchLabels(OneOf(inst.ra(), B.TAG_FALSE, B.TAG_NULL), B.Target(pc, inst).value)
    case Call =>
      M.Yield(SpillFrom(0, n) + [StoreOut("ip", K(pc as i64)), StoreOut("dest", K(inst.ra() as i64)),
                                 StoreOut("func", K(inst.rb() as i64)), StoreOut("args", K(inst.operand as i64))],
              ReturnConst(STATUS_CALL))
    case Await =>
      M.Stop(SpillFrom(0, n) + [StoreOut("ip", K(pc as i64)), StoreOut("func", K(inst.ra() as i64))],
        ReturnConst(STATUS_SUSPEND))
    case Return => M.Stop([StoreOut("ret", V(inst.ra()))], ReturnConst(STATUS_RETURN))
    case Throw => M.Stop([], ReturnConst(STATUS_THROW))
    case _ => M.Straight(Lower(f, inst))
  }

  predicate Acceptable(f: B.Function)
  {
    && 0 < |f.code| < 0x8000_0000
    && forall pc :: 0 <= pc < |f.code| ==> B.ConstantsOk(f, f.code[pc]) && B.TargetOk(f, pc, f.code[pc])
  }

  function ProgramOf(f: B.Function, n: nat): M.Program
    requires Acceptable(f)
  {
    M.Program(seq(|f.code|, pc requires 0 <= pc < |f.code| => ShapeOf(f, n, pc)),
              M.Stop([StoreOut("ret", K(B.TAG_NULL))], ReturnConst(STATUS_RETURN)))
  }

  // ---------------------------------------------------------------- typing

  ghost predicate VarsDeclared(n: nat, types: seq<ClifType>)
  {
    |types| == n + 1 && forall v :: 0 <= v <= n ==> types[v] == I64Type
  }

  lemma {:induction false} SpillTyped(types: seq<ClifType>, n: nat, i: nat, k: nat)
    requires VarsDeclared(n, types) && k <= n
    ensures M.CodeTyped(types, SpillFrom(i, k))
    decreases k - i
  {
    hide B.HelperName, ExecCode, M.Run;
    if i < k {
      SpillTyped(types, n, i + 1, k);
    }
  }

  lemma ConcatTyped(types: seq<ClifType>, a: seq<Inst>, b: seq<Inst>)
    requires M.CodeTyped(types, a) && M.CodeTyped(types, b)
    ensures M.CodeTyped(types, a + b)
  {
  }

  lemma HelperTyped(types: seq<ClifType>, n: nat, inst: B.Instruction, args: seq<Operand>)
    requires VarsDeclared(n, types) && inst.ra() < n
    requires forall i :: 0 <= i < |args| && args[i].V? ==> args[i].v < n
    ensures M.CodeTyped(types, Helper(inst, args)) && M.CodeTyped(types, HelperVoid(inst, args))
  {
    hide B.HelperName;
    forall a | a in args && a.V? ensures HasType(types, a.v, I64Type) {
      var i :| 0 <= i < |args| && args[i] == a;
    }
  }

  lemma LiteralTyped(types: seq<ClifType>, f: B.Function, n: nat, inst: B.Instruction)
    requires VarsDeclared(n, types) && B.ConstantsOk(f, inst) && B.RegsBelow(inst, n)
    requires inst.op == B.OpCode.MakeArray || inst.op == B.OpCode.MakeObject
    ensures M.CodeTyped(types, Lower(f, inst))
  {
    hide SpillFrom, B.HelperName, B.Step, ExecCode, B.WellFormed, M.Run;
    var count := B.SpanLength(inst);
    var call := [CallSlots(inst.ra(), B.HelperName(inst.op), inst.rb(), count)];
    SpillTyped(types, n, inst.rb(), inst.rb() + count);
    assert M.CodeTyped(types, call);
    ConcatTyped(types, SpillFrom(inst.rb(), inst.rb() + count), call);
  }

  lemma SimpleTyped(types: seq<ClifType>, n: nat, inst: B.Instruction)
    requires VarsDeclared(n, types) && inst.ra() < n && inst.rb() < n
    ensures forall k: i64 :: M.CodeTyped(types, [IConst(inst.ra(), k)])
    ensures M.CodeTyped(types, [CopyVar(inst.ra(), inst.rb())])
  {
    hide Lower, ExecCode;
  }

  lemma OperandsBelow(f: B.Function, n: nat, inst: B.Instruction)
    requires B.ConstantsOk(f, inst) && B.RegsBelow(inst, n)
    ensures forall i :: 0 <= i < |HelperOperands(f, inst)| && HelperOperands(f, inst)[i].V? ==>
      HelperOperands(f, inst)[i].v < n
  {
    hide B.HelperName;
  }

  lemma LowerTyped(types: seq<ClifType>, f: B.Function, n: nat, inst: B.Instruction)
    requires VarsDeclared(n, types) && B.ConstantsOk(f, inst) && B.RegsBelow(inst, n)
    ensures M.CodeTyped(types, Lower(f, inst))
  {
    hide B.HelperName;
    if inst.op == B.OpCode.MakeArray || inst.op == B.OpCode.MakeObject {
      LiteralTyped(types, f, n, inst);
    } else {
      hide SpillFrom, M.CodeTyped, B.HelperName, HelperOperands;
      SimpleTyped(types, n, inst);
      OperandsBelow(f, n, inst);
      HelperTyped(types, n, inst, HelperOperands(f, inst));
    }
  }

  // What a call and an await report is typed, behind the spilled registers.
  lemma ReportTyped(types: seq<ClifType>, n: nat, pc: nat, inst: B.Instruction)
    requires VarsDeclared(n, types) && pc < 0x8000_0000
    ensures M.CodeTyped(types, SpillFrom(0, n) + [StoreOut("ip", K(pc as i64)), StoreOut("dest", K(inst.ra() as i64)),
                                                  StoreOut("func", K(inst.rb() as i64)),
                                                    StoreOut("args", K(inst.operand as i64))])
    ensures M.CodeTyped(types, SpillFrom(0, n) + [StoreOut("ip", K(pc as i64)), StoreOut("func", K(inst.ra() as i64))])
  {
    hide SpillFrom;
    var call := [StoreOut("ip", K(pc as i64)), StoreOut("dest", K(inst.ra() as i64)),
                 StoreOut("func", K(inst.rb() as i64)), StoreOut("args", K(inst.operand as i64))];
    var await := [StoreOut("ip", K(pc as i64)), StoreOut("func", K(inst.ra() as i64))];
    SpillTyped(types, n, 0, n);
    assert M.CodeTyped(types, call) && M.CodeTyped(types, await);
    ConcatTyped(types, SpillFrom(0, n), call);
    ConcatTyped(types, SpillFrom(0, n), await);
  }

  lemma JumpTyped(types: seq<ClifType>, f: B.Function, n: nat, pc: nat)
    requires Acceptable(f) && pc < |f.code|
    requires f.code[pc].op in {B.OpCode.Jump, B.OpCode.Loop, B.OpCode.JumpIfFalse}
    ensures M.ShapeOk(types, ShapeOf(f, n, pc), pc, |f.code|)
  {
    hide Lower, SpillFrom, B.Distance;
    assert B.TargetOk(f, pc, f.code[pc]);
    hide Acceptable;
  }

  lemma CallTyped(types: seq<ClifType>, f: B.Function, n: nat, pc: nat)
    requires VarsDeclared(n, types) && Acceptable(f) && pc < |f.code| && f.code[pc].op == B.OpCode.Call
    ensures M.ShapeOk(types, ShapeOf(f, n, pc), pc, |f.code|)
  {
    assert |f.code| < 0x8000_0000;
    hide Lower, SpillFrom, B.Target, Acceptable, M.CodeTyped, VarsDeclared;
    ReportTyped(types, n, pc, f.code[pc]);
  }

  lemma AwaitTyped(types: seq<ClifType>, f: B.Function, n: nat, pc: nat)
    requires VarsDeclared(n, types) && Acceptable(f) && pc < |f.code| && f.code[pc].op == B.OpCode.Await
    ensures M.ShapeOk(types, ShapeOf(f, n, pc), pc, |f.code|)
  {
    assert |f.code| < 0x8000_0000;
    hide Lower, SpillFrom, B.Target, Acceptable, M.CodeTyped, VarsDeclared;
    ReportTyped(types, n, pc, f.code[pc]);
  }

  lemma EndTyped(types: seq<ClifType>, f: B.Function, n: nat, pc: nat)
    requires VarsDeclared(n, types) && Acceptable(f) && pc < |f.code| && B.RegsBelow(f.code[pc], n)
    requires f.code[pc].op == B.OpCode.Return || f.code[pc].op == B.OpCode.Throw
    ensures M.ShapeOk(types, ShapeOf(f, n, pc), pc, |f.code|)
  {
    hide Lower, SpillFrom, B.Target, Acceptable;
  }

  lemma StraightTyped(types: seq<ClifType>, f: B.Function, n: nat, pc: nat)
    requires VarsDeclared(n, types) && Acceptable(f) && pc < |f.code| && B.RegsBelow(f.code[pc], n)
    requires f.code[pc].op !in {B.OpCode.Jump, B.OpCode.Loop, B.OpCode.JumpIfFalse, B.OpCode.Call, B.OpCode.Await,
                                B.OpCode.Return, B.OpCode.Throw}
    ensures M.ShapeOk(types, ShapeOf(f, n, pc), pc, |f.code|)
  {
    hide Lower, SpillFrom, B.Target, M.CodeTyped;
    assert B.ConstantsOk(f, f.code[pc]);
    hide Acceptable;
    LowerTyped(types, f, n, f.code[pc]);
  }

  lemma ShapeTyped(types: seq<ClifType>, f: B.Function, n: nat, pc: nat)
    requires VarsDeclared(n, types) && Acceptable(f) && pc < |f.code| && B.RegsBelow(f.code[pc], n)
    ensures M.ShapeOk(types, ShapeOf(f, n, pc), pc, |f.code|)
  {
    hide ShapeOf, M.ShapeOk, VarsDeclared, Acceptable;
    var op := f.code[pc].op;
    if op in {B.OpCode.Jump, B.OpCode.Loop, B.OpCode.JumpIfFalse} {
      JumpTyped(types, f, n, pc);
    } else if op == B.OpCode.Call {
      CallTyped(types, f, n, pc);
    } else if op == B.OpCode.Await {
      AwaitTyped(types, f, n, pc);
    } else if op == B.OpCode.Return || op == B.OpCode.Throw {
      EndTyped(types, f, n, pc);
    } else {
      StraightTyped(types, f, n, pc);
    }
  }

  lemma TailTyped(types: seq<ClifType>, f: B.Function, n: nat)
    requires Acceptable(f)
    ensures M.ShapeOk(types, ProgramOf(f, n).tail, |f.code|, |f.code|)
  {
    hide ShapeOf, Acceptable;
  }

  lemma ProgramTyped(types: seq<ClifType>, f: B.Function, n: nat)
    requires VarsDeclared(n, types) && Acceptable(f) && B.Fits(f, n)
    ensures M.ProgramOk(types, ProgramOf(f, n))
  {
    hide ShapeOf, M.ShapeOk;
    forall pc | 0 <= pc < |f.code| ensures M.ShapeOk(types, ShapeOf(f, n, pc), pc, |f.code|) {
      ShapeTyped(types, f, n, pc);
    }
    TailTyped(types, f, n);
  }

  // ---------------------------------------------------------------- the compiler

  method DeclareVars(builder: FunctionBuilder, n: nat)
    requires builder.varTypes == []
    modifies builder`varTypes
    ensures VarsDeclared(n, builder.varTypes)
  {
    for i := 0 to n + 1
      invariant |builder.varTypes| == i && forall v :: 0 <= v < i ==> builder.varTypes[v] == I64Type
    {
      var _ := builder.DeclareVar(I64Type);
    }
  }

  // The pcs that get a block because of the instruction at pc.
  function LabelsAt(f: B.Function, pc: nat): set<int>
    requires pc < |f.code|
  {
    var inst := f.code[pc];
    (match B.Target(pc, inst) case Some(t) => {t} case None => {})
    + (if inst.op == B.OpCode.JumpIfFalse || inst.op == B.OpCode.Loop then {pc + 1} else {})
    + (if IsResumeTarget(f, pc) then {pc as int} else {})
  }

  // Adds a block for pc t unless it has one; the block under construction stays as it is.
  method AddLabel(builder: FunctionBuilder, labels: map<nat, BlockId>, t: nat) returns (labels': map<nat, BlockId>)
    requires M.BlocksOk(builder.blocks, labels, 0, builder.current)
    modifies builder`blocks
    ensures M.BlocksOk(builder.blocks, labels', 0, builder.current) && labels'.Keys == labels.Keys + {t}
    ensures M.Grown(old(builder.blocks), builder.blocks)
    ensures M.Here(builder.blocks, builder.current) == M.Here(old(builder.blocks), builder.current)
  {
    labels' := labels;
    if t !in labels {
      ghost var before := builder.blocks;
      var b := builder.CreateBlock();
      labels' := labels[t := b];
      forall c | 0 <= c < |builder.blocks| && !builder.blocks[c].entered ensures M.Awaited(labels', 0, c) {
        if c == b {
          assert labels'[t] == c;
        } else {
          assert before[c] == builder.blocks[c];
          assert M.Awaited(labels, 0, c);
          var u :| u in labels && labels[u] == c;
          assert labels'[u] == c;
        }
      }
    }
  }

  method AddLabelIf(builder: FunctionBuilder, labels: map<nat, BlockId>, wanted: bool, t: int)
    returns (labels': map<nat, BlockId>)
    requires M.BlocksOk(builder.blocks, labels, 0, builder.current) && (wanted ==> t >= 0)
    modifies builder`blocks
    ensures M.BlocksOk(builder.blocks, labels', 0, builder.current)
    ensures labels.Keys <= labels'.Keys && (wanted ==> t in labels'.Keys)
    ensures M.Grown(old(builder.blocks), builder.blocks)
    ensures M.Here(builder.blocks, builder.current) == M.Here(old(builder.blocks), builder.current)
  {
    hide M.BlocksOk, M.Grown, M.Here;
    M.GrownSelf(builder.blocks);
    labels' := labels;
    if wanted {
      labels' := AddLabel(builder, labels', t);
    }
  }

  ghost predicate Covered(f: B.Function, labels: set<nat>, pc: nat)
    requires pc < |f.code|
  {
    forall t :: t in LabelsAt(f, pc) ==> t in labels
  }

  ghost predicate LabelsSoFar(f: B.Function, labels: map<nat, BlockId>, k: nat)
    requires k <= |f.code|
  {
    0 in labels && forall pc :: 0 <= pc < k ==> Covered(f, labels.Keys, pc)
  }

  method AddLabelsAt(builder: FunctionBuilder, f: B.Function, labels: map<nat, BlockId>, pc: nat, resumeHere: bool)
    returns (labels': map<nat, BlockId>)
    requires M.BlocksOk(builder.blocks, labels, 0, builder.current)
    requires Acceptable(f) && pc < |f.code| && (resumeHere <==> IsResumeTarget(f, pc))
    modifies builder`blocks
    ensures M.BlocksOk(builder.blocks, labels', 0, builder.current)
    ensures labels.Keys <= labels'.Keys && Covered(f, labels'.Keys, pc)
    ensures M.Grown(old(builder.blocks), builder.blocks)
    ensures M.Here(builder.blocks, builder.current) == M.Here(old(builder.blocks), builder.current)
  {
    hide M.BlocksOk, M.Grown, M.Here, IsResumeTarget, B.Target, B.ConstantsOk;
    ghost var b0 := builder.blocks;
    var inst := f.code[pc];
    assert B.TargetOk(f, pc, inst);
    var target := B.Target(pc, inst);
    labels' := AddLabelIf(builder, labels, target.Some?, if target.Some? then target.value else 0);
    ghost var b1 := builder.blocks;
    labels' := AddLabelIf(builder, labels', inst.op == B.OpCode.JumpIfFalse || inst.op == B.OpCode.Loop, pc + 1);
    M.GrownTransitive(b0, b1, builder.blocks);
    ghost var b2 := builder.blocks;
    labels' := AddLabelIf(builder, labels', resumeHere, pc);
    M.GrownTransitive(b0, b2, builder.blocks);
  }

  // One block for pc 0 and for every pc a jump, a branch or a resumption can lead to.
  method CreateLabels(builder: FunctionBuilder, f: B.Function, resume: seq<bool>) returns (labels: map<nat, BlockId>)
    requires M.BlocksOk(builder.blocks, map[], 0, builder.current) && Acceptable(f) && |resume| == |f.code|
    requires forall pc :: 0 <= pc < |resume| ==> (resume[pc] <==> IsResumeTarget(f, pc))
    modifies builder`blocks
    ensures M.BlocksOk(builder.blocks, labels, 0, builder.current) && LabelsSoFar(f, labels, |f.code|)
    ensures M.Grown(old(builder.blocks), builder.blocks)
    ensures M.Here(builder.blocks, builder.current) == M.Here(old(builder.blocks), builder.current)
  {
    hide M.BlocksOk, M.Grown, M.Here, IsResumeTarget, LabelsAt, Acceptable;
    ghost var first := builder.blocks;
    labels := AddLabel(builder, map[], 0);
    for pc := 0 to |f.code|
      invariant M.BlocksOk(builder.blocks, labels, 0, builder.current) && LabelsSoFar(f, labels, pc)
      invariant M.Grown(first, builder.blocks)
      invariant M.Here(builder.blocks, builder.current) == M.Here(first, builder.current)
    {
      ghost var before, was := labels.Keys, builder.blocks;
      labels := AddLabelsAt(builder, f, labels, pc, resume[pc]);
      M.GrownTransitive(first, was, builder.blocks);
      forall i | 0 <= i < pc ensures Covered(f, labels.Keys, i) {
        assert Covered(f, before, i);
      }
    }
  }

  lemma LabelsSuffice(f: B.Function, n: nat, labels: map<nat, BlockId>)
    requires Acceptable(f) && LabelsSoFar(f, labels, |f.code|)
    ensures M.LabelsCover(ProgramOf(f, n), labels)
    ensures forall pc: nat :: IsResumeTarget(f, pc) ==> pc in labels
  {
    hide Lower;
    forall pc | 0 <= pc < |f.code| ensures M.LabelsFor(ShapeOf(f, n, pc), pc, labels) {
      assert B.TargetOk(f, pc, f.code[pc]);
      assert Covered(f, labels.Keys, pc);
      if f.code[pc].op == B.OpCode.JumpIfFalse {
        assert pc + 1 in LabelsAt(f, pc);
      }
      if B.Target(pc, f.code[pc]).Some? {
        assert B.Target(pc, f.code[pc]).value in LabelsAt(f, pc);
      }
    }
    forall pc: nat | IsResumeTarget(f, pc) ensures pc in labels {
      assert Covered(f, labels.Keys, pc) && pc as int in LabelsAt(f, pc);
    }
  }

  // ---------------------------------------------------------------- entering the function

  function ReloadFrom(i: nat, n: nat): seq<Inst>
    decreases n - i
  {
    if i >= n then [] else [LoadSlot(i, i)] + ReloadFrom(i + 1, n)
  }

  // Arguments come from the slots; every other register starts as null.
  function ArgsFrom(i: nat, n: nat, arity: nat): seq<Inst>
    decreases n - i
  {
    if i >= n then [] else [if i < arity then LoadSlot(i, i) else IConst(i, B.TAG_NULL)] + ArgsFrom(i + 1, n, arity)
  }

  function EntryCode(n: nat, arity: nat): seq<Inst>
  {
    [BindParam(StartVar(n), 3)] + ArgsFrom(0, n, arity)
  }

  // From position q, a start pc that is none of `order` leads to position r.
  ghost predicate ChainTo(blocks: seq<Block>, labels: map<nat, BlockId>, v: Var, q: M.Pos, order: seq<nat>, r: M.Pos)
    decreases |order|
  {
    if order == [] then q == r
    else
      var t := order[|order| - 1];
      && t in labels && t < 0x8000_0000 && r.index == 0
      && var test := BrIf(Equals(v, t as i64), labels[t], r.block);
         exists mid: M.Pos {:trigger M.EndsWith(blocks, mid, test)} ::
           && ChainTo(blocks, labels, v, q, order[..|order| - 1], mid)
           && M.EndsWith(blocks, mid, test)
  }

  lemma {:induction false} ChainKept(a: seq<Block>, b: seq<Block>, labels: map<nat, BlockId>, v: Var, q: M.Pos,
      order: seq<nat>, r: M.Pos)
    requires ChainTo(a, labels, v, q, order, r) && M.Grown(a, b)
    ensures ChainTo(b, labels, v, q, order, r)
    decreases |order|
  {
    hide M.Grown, M.EndsWith;
    if order != [] {
      var t := order[|order| - 1];
      var mid: M.Pos :| ChainTo(a, labels, v, q, order[..|order| - 1], mid)
                        && M.EndsWith(a, mid, BrIf(Equals(v, t as i64), labels[t], r.block));
      ChainKept(a, b, labels, v, q, order[..|order| - 1], mid);
      M.EndKept(a, b, mid, BrIf(Equals(v, t as i64), labels[t], r.block));
    }
  }

  lemma ChainAppend(blocks: seq<Block>, labels: map<nat, BlockId>, v: Var, q: M.Pos, order: seq<nat>, mid: M.Pos,
      t: nat, b: BlockId)
    requires ChainTo(blocks, labels, v, q, order, mid) && t in labels && t < 0x8000_0000
    requires M.EndsWith(blocks, mid, BrIf(Equals(v, t as i64), labels[t], b))
    ensures ChainTo(blocks, labels, v, q, order + [t], M.Pos(b, 0))
  {
    hide B.HelperName;
    assert (order + [t])[..|order|] == order;
  }

  // The tests of the dispatch: which labels they cover, and the position they start from.
  ghost predicate DispatchAt(f: B.Function, n: nat, blocks: seq<Block>, labels: map<nat, BlockId>, q: M.Pos)
  {
    if CanResume(f) then
      exists b: BlockId, order: seq<nat>,
        r: M.Pos {:trigger ChainTo(blocks, labels, StartVar(n), M.Pos(b, n), order, r)} ::
        && 0 in labels && M.EndsWith(blocks, q, BrIf(Zero(StartVar(n)), labels[0], b))
        && M.CodeAt(blocks, M.Pos(b, 0), ReloadFrom(0, n))
        && ChainTo(blocks, labels, StartVar(n), M.Pos(b, n), order, r)
        && (forall t :: t in order <==> IsResumeTarget(f, t))
        && M.EndsWith(blocks, r, JumpTo(labels[0]))
    else
      0 in labels && M.EndsWith(blocks, q, JumpTo(labels[0]))
  }

  lemma {:induction false} ReloadTyped(types: seq<ClifType>, n: nat, i: nat)
    requires VarsDeclared(n, types)
    ensures M.CodeTyped(types, ReloadFrom(i, n)) && (i <= n ==> |ReloadFrom(i, n)| == n - i)
    decreases n - i
  {
    hide B.HelperName;
    if i < n {
      ReloadTyped(types, n, i + 1);
    }
  }

  lemma {:induction false} ArgsTyped(types: seq<ClifType>, n: nat, arity: nat, i: nat)
    requires VarsDeclared(n, types)
    ensures M.CodeTyped(types, ArgsFrom(i, n, arity))
    decreases n - i
  {
    hide B.HelperName, B.Step;
    if i < n {
      ArgsTyped(types, n, arity, i + 1);
    }
  }

  lemma AcceptableSmall(f: B.Function)
    requires Acceptable(f)
    ensures 0 < |f.code| < 0x8000_0000
  {
  }

  lemma ChainEmpty(blocks: seq<Block>, labels: map<nat, BlockId>, v: Var, q: M.Pos)
    ensures ChainTo(blocks, labels, v, q, [], q)
  {
  }

  lemma NotResume(f: B.Function, t: nat)
    ensures t == 0 || t >= |f.code| ==> !IsResumeTarget(f, t)
  {
  }

  // Tests the start pc against every resume target, in any order.
  method EmitChain(builder: FunctionBuilder, f: B.Function, n: nat, labels: map<nat, BlockId>, resume: seq<bool>)
    returns (ghost order: seq<nat>)
    requires M.BlocksOk(builder.blocks, labels, 0, builder.current) && builder.Open()
    requires |resume| == |f.code| && Acceptable(f)
    requires forall pc :: 0 <= pc < |resume| ==> (resume[pc] <==> IsResumeTarget(f, pc))
    requires forall pc :: IsResumeTarget(f, pc) ==> pc in labels
    modifies builder`blocks, builder`current
    ensures M.BlocksOk(builder.blocks, labels, 0, builder.current) && builder.Open()
    ensures M.Grown(old(builder.blocks), builder.blocks)
    ensures forall t :: t in order <==> IsResumeTarget(f, t)
    ensures ChainTo(builder.blocks, labels, StartVar(n), M.Here(old(builder.blocks), old(builder.current)).value, order,
                    M.Here(builder.blocks, builder.current).value)
  {
    hide M.BlocksOk, M.Grown, IsResumeTarget, ChainTo, Acceptable;
    assert |f.code| < 0x8000_0000 by { AcceptableSmall(f); }
    ghost var first, q := builder.blocks, M.Here(builder.blocks, builder.current).value;
    M.GrownSelf(first);
    order := [];
    ChainEmpty(first, labels, StartVar(n), q);
    var left := labels.Keys;
    while left != {}
      invariant left <= labels.Keys
      invariant M.BlocksOk(builder.blocks, labels, 0, builder.current) && builder.Open()
      invariant M.Grown(first, builder.blocks)
      invariant forall t :: t in order <==> t in labels.Keys - left && IsResumeTarget(f, t)
      invariant ChainTo(builder.blocks, labels, StartVar(n), q, order, M.Here(builder.blocks, builder.current).value)
      decreases |left|
    {
      var t :| t in left;
      left := left - {t};
      if t > 0 && t < |resume| && resume[t] {
        ghost var was, mid := builder.blocks, M.Here(builder.blocks, builder.current).value;
        M.BlocksOkFacts(builder.blocks, labels, 0, builder.current);
        M.FinishInto(builder, labels, 0, BrIf(Equals(StartVar(n), t as i64), labels[t], |builder.blocks|),
          |builder.blocks|);
        M.GrownTransitive(first, was, builder.blocks);
        ChainKept(was, builder.blocks, labels, StartVar(n), q, order, mid);
        ChainAppend(builder.blocks, labels, StartVar(n), q, order, mid, t, builder.current.value);
        order := order + [t];
      } else {
        assert !IsResumeTarget(f, t) by { NotResume(f, t); }
      }
    }
  }

  lemma AnyResume(f: B.Function, resume: seq<bool>)
    requires |resume| == |f.code|
    requires forall pc :: 0 <= pc < |resume| ==> (resume[pc] <==> IsResumeTarget(f, pc))
    ensures true in resume <==> CanResume(f)
  {
    if CanResume(f) {
      var pc: nat :| IsResumeTarget(f, pc);
      assert resume[pc];
    }
  }

  method EmitDispatch(builder: FunctionBuilder, f: B.Function, n: nat, labels: map<nat, BlockId>, resume: seq<bool>)
    requires M.BlocksOk(builder.blocks, labels, 0, builder.current) && builder.Open()
      && VarsDeclared(n, builder.varTypes)
    requires |resume| == |f.code| && Acceptable(f) && 0 in labels
    requires forall pc :: 0 <= pc < |resume| ==> (resume[pc] <==> IsResumeTarget(f, pc))
    requires forall pc :: IsResumeTarget(f, pc) ==> pc in labels
    modifies builder`blocks, builder`current
    ensures M.BlocksOk(builder.blocks, labels, 0, builder.current)
    ensures M.Grown(old(builder.blocks), builder.blocks) && M.Terminated(builder.blocks, builder.current)
    ensures DispatchAt(f, n, builder.blocks, labels, M.Here(old(builder.blocks), old(builder.current)).value)
  {
    hide M.BlocksOk, M.Grown, IsResumeTarget, ChainTo, Acceptable, M.CodeAt, M.EndsWith, VarsDeclared, M.CodeTyped;
    ghost var b0, q := builder.blocks, M.Here(builder.blocks, builder.current).value;
    var anyResume := true in resume;
    AnyResume(f, resume);
    M.BlocksOkFacts(builder.blocks, labels, 0, builder.current);
    if anyResume {
      var b := |builder.blocks|;
      M.FinishInto(builder, labels, 0, BrIf(Zero(StartVar(n)), labels[0], b), b);
      ghost var b1 := builder.blocks;
      ReloadTyped(builder.varTypes, n, 0);
      M.Append(builder, labels, 0, ReloadFrom(0, n));
      ghost var b2 := builder.blocks;
      ghost var order := EmitChain(builder, f, n, labels, resume);
      ghost var b3, r := builder.blocks, M.Here(builder.blocks, builder.current).value;
      M.BlocksOkFacts(builder.blocks, labels, 0, builder.current);
      M.Finish(builder, labels, 0, JumpTo(labels[0]));
      M.GrownTransitive(b2, b3, builder.blocks);
      M.GrownTransitive(b1, b2, builder.blocks);
      M.GrownTransitive(b0, b1, builder.blocks);
      M.EndKept(b1, builder.blocks, q, BrIf(Zero(StartVar(n)), labels[0], b));
      M.CodeKept(b2, builder.blocks, M.Pos(b, 0), ReloadFrom(0, n));
      ChainKept(b3, builder.blocks, labels, StartVar(n), M.Pos(b, n), order, r);
    } else {
      M.Finish(builder, labels, 0, JumpTo(labels[0]));
    }
  }

  // ---------------------------------------------------------------- the compiled function

  ghost predicate Compiled(f: B.Function, n: nat, L: M.Layout, entry: BlockId, types: seq<ClifType>)
  {
    && Acceptable(f) && B.Fits(f, n) && f.arity <= n && VarsDeclared(n, types)
    && M.Laid(ProgramOf(f, n), L)
    && M.CodeAt(L.blocks, M.Pos(entry, 0), EntryCode(n, f.arity))
    && DispatchAt(f, n, L.blocks, L.labels, M.Pos(entry, |EntryCode(n, f.arity)|))
    && (forall pc: nat :: IsResumeTarget(f, pc) ==> pc in L.labels)
  }

  lemma EntryTyped(types: seq<ClifType>, n: nat, arity: nat)
    requires VarsDeclared(n, types)
    ensures M.CodeTyped(types, EntryCode(n, arity))
  {
    hide B.HelperName;
    ArgsTyped(types, n, arity, 0);
    assert M.CodeTyped(types, [BindParam(StartVar(n), 3)]);
    ConcatTyped(types, [BindParam(StartVar(n), 3)], ArgsFrom(0, n, arity));
  }

  lemma ZeroLabel(f: B.Function, labels: map<nat, BlockId>)
    requires LabelsSoFar(f, labels, |f.code|)
    ensures 0 in labels
  {
  }

  lemma DispatchKept(f: B.Function, n: nat, a: seq<Block>, b: seq<Block>, labels: map<nat, BlockId>, q: M.Pos)
    requires DispatchAt(f, n, a, labels, q) && M.Grown(a, b)
    ensures DispatchAt(f, n, b, labels, q)
  {
    hide M.Grown, M.EndsWith, M.CodeAt, ChainTo, IsResumeTarget, Lower, Acceptable;
    if CanResume(f) {
      var c: BlockId, order: seq<nat>, r: M.Pos :|
        && 0 in labels && M.EndsWith(a, q, BrIf(Zero(StartVar(n)), labels[0], c))
        && M.CodeAt(a, M.Pos(c, 0), ReloadFrom(0, n))
        && ChainTo(a, labels, StartVar(n), M.Pos(c, n), order, r)
        && (forall t :: t in order <==> IsResumeTarget(f, t))
        && M.EndsWith(a, r, JumpTo(labels[0]));
      M.EndKept(a, b, q, BrIf(Zero(StartVar(n)), labels[0], c));
      M.CodeKept(a, b, M.Pos(c, 0), ReloadFrom(0, n));
      ChainKept(a, b, labels, StartVar(n), M.Pos(c, n), order, r);
      M.EndKept(a, b, r, JumpTo(labels[0]));
    } else {
      M.EndKept(a, b, q, JumpTo(labels[0]));
    }
  }

  method CompileFunction(builder: FunctionBuilder, f: B.Function) returns (n: nat, entry: BlockId, ghost L: M.Layout)
    requires builder.blocks == [] && builder.current == None && builder.varTypes == []
    requires Acceptable(f)
    modifies builder
    ensures L.blocks == builder.blocks && Compiled(f, n, L, entry, builder.varTypes)
  {
    hide Acceptable, IsResumeTarget, M.Grown, M.CodeTyped, VarsDeclared, DispatchAt, B.Fits, LabelsSoFar, EntryCode,
      M.CodeAt,
      M.ProgramOk, ProgramOf, M.Laid, M.FlowsTo;
    n := CalculateNumRegs(f);
    var resume := CalculateResumeTargets(f);
    DeclareVars(builder, n);
    entry := builder.CreateBlock();
    builder.SwitchToBlock(entry);
    EntryTyped(builder.varTypes, n, f.arity);
    M.Append(builder, map[], 0, EntryCode(n, f.arity));
    ghost var b0 := builder.blocks;
    var labels := CreateLabels(builder, f, resume);
    hide M.BlocksOk;
    LabelsSuffice(f, n, labels);
    ghost var b1 := builder.blocks;
    ZeroLabel(f, labels);
    M.BlocksOkFacts(b1, labels, 0, builder.current);
    EmitDispatch(builder, f, n, labels, resume);
    ghost var b2, q := builder.blocks, M.Pos(entry, |EntryCode(n, f.arity)|);
    ProgramTyped(builder.varTypes, f, n);
    L := M.EmitBody(builder, labels, ProgramOf(f, n));
    M.GrownTransitive(b0, b1, b2);
    M.GrownTransitive(b0, b2, builder.blocks);
    M.CodeKept(b0, builder.blocks, M.Pos(entry, 0), EntryCode(n, f.arity));
    DispatchKept(f, n, b2, builder.blocks, labels, q);
  }

  // ---------------------------------------------------------------- interpreter and program in lockstep

  ghost predicate RegIs(regs: seq<i64>, vars: map<Var, Val>, r: nat)
    requires r < |regs|
  {
    r in vars && vars[r] == I(regs[r])
  }

  ghost predicate RegsIn(regs: seq<i64>, vars: map<Var, Val>)
  {
    forall r: nat {:trigger RegIs(regs, vars, r)} :: r < |regs| ==> RegIs(regs, vars, r)
  }

  ghost predicate Agree<W>(s: B.State<W>, d: Data<W>)
  {
    RegsIn(s.regs, d.vars) && s.world == d.world
  }

  lemma RegRead(regs: seq<i64>, vars: map<Var, Val>, r: nat)
    requires RegsIn(regs, vars) && r < |regs|
    ensures r in vars && vars[r] == I(regs[r]) && IntVal(vars, r) == Some(regs[r])
  {
    assert RegIs(regs, vars, r);
  }

  lemma RegPut(regs: seq<i64>, vars: map<Var, Val>, r: nat, v: i64)
    requires RegsIn(regs, vars) && r < |regs|
    ensures RegsIn(regs[r := v], vars[r := I(v)])
  {
    var regs', vars' := regs[r := v], vars[r := I(v)];
    forall q: nat | q < |regs'| ensures RegIs(regs', vars', q) {
      assert RegIs(regs, vars, q);
    }
  }

  ghost predicate SlotIs(frame: map<nat, i64>, regs: seq<i64>, j: nat)
    requires j < |regs|
  {
    j in frame && frame[j] == regs[j]
  }

  // The slots i to k - 1 hold the registers.
  ghost predicate Spilled(frame: map<nat, i64>, regs: seq<i64>, i: nat, k: nat)
    requires k <= |regs|
  {
    forall j: nat {:trigger SlotIs(frame, regs, j)} :: i <= j < k ==> SlotIs(frame, regs, j)
  }

  // Spilling writes the registers from i on into the slots, and nothing else.
  lemma {:induction false} SpillWrites<W>(host: Host<W>, regs: seq<i64>, d: Data<W>, i: nat, k: nat)
    requires RegsIn(regs, d.vars) && k <= |regs|
    ensures
      var e := ExecCode(host, SpillFrom(i, k), d);
      && e.Done? && e.data == d.(frame := e.data.frame) && Spilled(e.data.frame, regs, i, k)
      && (forall j: nat :: j < i && j in d.frame ==> j in e.data.frame && e.data.frame[j] == d.frame[j])
    decreases k - i
  {
    hide B.HelperName;
    if i < k {
      RegRead(regs, d.vars, i);
      var d1 := d.(frame := d.frame[i := regs[i]]);
      SpillWrites(host, regs, d1, i + 1, k);
      var e := ExecCode(host, SpillFrom(i + 1, k), d1);
      forall j: nat | i <= j < k ensures SlotIs(e.data.frame, regs, j) {
        if j == i {
          assert i in d1.frame;
        }
      }
    }
  }

  lemma {:induction false} SlotsRead(frame: map<nat, i64>, regs: seq<i64>, i: nat, count: nat)
    requires i + count <= |regs| && Spilled(frame, regs, i, i + count)
    ensures SlotVals(frame, i, count) == Some(regs[i..i + count])
    decreases count
  {
    if count > 0 {
      assert SlotIs(frame, regs, i);
      SlotsRead(frame, regs, i + 1, count - 1);
      assert regs[i..i + count] == [regs[i]] + regs[i + 1..i + count];
    }
  }

  lemma ExecOne<W>(host: Host<W>, inst: Inst, d: Data<W>)
    ensures ExecCode(host, [inst], d) == ExecInst(host, inst, d)
  {
    hide ExecInst;
    if ExecInst(host, inst, d).Done? {
      assert ExecCode(host, [], ExecInst(host, inst, d).data) == ExecInst(host, inst, d);
    }
  }

  // The operands of a helper call as the interpreter reads them.
  ghost predicate Reads(vars: map<Var, Val>, os: seq<Operand>, vs: seq<i64>)
  {
    |os| == |vs| && forall i :: 0 <= i < |os| ==> OperandVal(vars, os[i]) == Some(vs[i])
  }

  lemma {:induction false} OperandsRead(vars: map<Var, Val>, os: seq<Operand>, vs: seq<i64>)
    requires Reads(vars, os, vs)
    ensures OperandVals(vars, os) == Some(vs)
  {
    if os != [] {
      assert OperandVal(vars, os[0]) == Some(vs[0]);
      OperandsRead(vars, os[1..], vs[1..]);
      assert vs == [vs[0]] + vs[1..];
    }
  }

  lemma HelperRuns<W>(host: Host<W>, inst: B.Instruction, os: seq<Operand>, vs: seq<i64>, d: Data<W>)
    requires Reads(d.vars, os, vs)
    ensures var r := host.callWord(B.HelperName(inst.op), vs, d.world);
      ExecCode(host, Helper(inst, os), d) == Done(d.(vars := d.vars[inst.ra() := I(r.0)], world := r.1))
    ensures ExecCode(host, HelperVoid(inst, os), d)
      == Done(d.(world := host.callVoid(B.HelperName(inst.op), vs, d.world)))
  {
    hide B.HelperName, ExecCode, B.WellFormed;
    OperandsRead(d.vars, os, vs);
    ExecOne(host, Helper(inst, os)[0], d);
    ExecOne(host, HelperVoid(inst, os)[0], d);
  }

  ghost predicate StraightAgrees<W>(host: Host<W>, f: B.Function, s: B.State<W>, d: Data<W>)
    requires s.pc < |f.code| && B.WellFormed(f) && B.RegsBelow(f.code[s.pc], |s.regs|)
    requires B.ConstantsOk(f, f.code[s.pc])
  {
    var o := B.Step(host, f, s);
    var e := ExecCode(host, Lower(f, f.code[s.pc]), d);
    o.Running? && o.state.pc == s.pc + 1 && e.Done? && Agree(o.state, e.data)
  }

  predicate IsStraight(op: B.OpCode)
  {
    !(op.Jump? || op.Loop? || op.JumpIfFalse? || op.Call? || op.Await? || op.Return? || op.Throw?)
  }

  ghost predicate Ready<W>(f: B.Function, s: B.State<W>, d: Data<W>)
  {
    && s.pc < |f.code| && B.WellFormed(f) && B.RegsBelow(f.code[s.pc], |s.regs|)
    && B.ConstantsOk(f, f.code[s.pc]) && IsStraight(f.code[s.pc].op) && Agree(s, d)
  }

  // Spilling a span and handing it to a helper passes the registers of the span.
  lemma LiteralRuns<W>(host: Host<W>, regs: seq<i64>, d: Data<W>, a: Var, name: string, start: nat, count: nat)
    requires RegsIn(regs, d.vars) && start + count <= |regs|
    ensures
      var r := host.callWord(name, regs[start..start + count], d.world);
      var e := ExecCode(host, SpillFrom(start, start + count) + [CallSlots(a, name, start, count)], d);
      e.Done? && e.data.vars == d.vars[a := I(r.0)] && e.data.world == r.1
  {
    hide SpillFrom, RegsIn, Spilled, Lower, B.Step, ExecCode, M.Run;
    var spill, call := SpillFrom(start, start + count), CallSlots(a, name, start, count);
    SpillWrites(host, regs, d, start, start + count);
    var d1 := ExecCode(host, spill, d).data;
    SlotsRead(d1.frame, regs, start, count);
    ExecAppend(host, spill, [call], d);
    ExecOne(host, call, d1);
  }

  // What the interpreter does for a literal.
  lemma LiteralSteps<W>(host: Host<W>, f: B.Function, s: B.State<W>)
    requires s.pc < |f.code| && B.WellFormed(f) && B.RegsBelow(f.code[s.pc], |s.regs|)
    requires f.code[s.pc].op.MakeArray? || f.code[s.pc].op.MakeObject?
    ensures
      var inst := f.code[s.pc];
      var start, count := inst.rb(), B.SpanLength(inst);
      && start + count <= |s.regs| && inst.ra() < |s.regs|
      && var r := host.callWord(B.HelperName(inst.op), s.regs[start..start + count], s.world);
      B.Step(host, f, s) == B.Running(B.State(s.pc + 1, s.regs[inst.ra() := r.0], r.1))
  {
    hide B.HelperName, B.WellFormed, ExecInst, M.Run;
    var inst := f.code[s.pc];
    if inst.op.MakeArray? {
      assert inst.rb() + inst.n() <= |s.regs| && inst.ra() < |s.regs|;
    } else {
      assert inst.rb() + 2 * inst.n() <= |s.regs| && inst.ra() < |s.regs|;
    }
  }

  lemma LiteralLowers(f: B.Function, inst: B.Instruction)
    requires (inst.op.MakeArray? || inst.op.MakeObject?) && B.ConstantsOk(f, inst)
    ensures Lower(f, inst)
      == SpillFrom(inst.rb(), inst.rb() + B.SpanLength(inst))
      + [CallSlots(inst.ra(), B.HelperName(inst.op), inst.rb(), B.SpanLength(inst))]
  {
    hide B.HelperName, SpillFrom;
  }

  lemma LiteralAgrees<W>(host: Host<W>, f: B.Function, s: B.State<W>, d: Data<W>)
    requires Ready(f, s, d) && (f.code[s.pc].op.MakeArray? || f.code[s.pc].op.MakeObject?)
    ensures StraightAgrees(host, f, s, d)
  {
    hide B.HelperName, SpillFrom, RegsIn, ExecCode, B.Step, Lower, B.SpanLength, ProgramOf, B.WellFormed, Acceptable;
    var inst := f.code[s.pc];
    var start, count := inst.rb(), B.SpanLength(inst);
    LiteralSteps(host, f, s);
    LiteralLowers(f, inst);
    LiteralRuns(host, s.regs, d, inst.ra(), B.HelperName(inst.op), start, count);
    RegPut(s.regs, d.vars, inst.ra(), host.callWord(B.HelperName(inst.op), s.regs[start..start + count], s.world).0);
  }

  lemma MoveAgrees<W>(host: Host<W>, f: B.Function, s: B.State<W>, d: Data<W>)
    requires Ready(f, s, d)
    requires var op := f.code[s.pc].op; op.LoadConst? || op.LoadNull? || op.LoadBool? || op.Move?
    ensures StraightAgrees(host, f, s, d)
  {
    hide B.HelperName, RegsIn, ProgramOf;
    var inst := f.code[s.pc];
    RegRead(s.regs, d.vars, inst.rb());
    ExecOne(host, Lower(f, inst)[0], d);
    RegPut(s.regs, d.vars, inst.ra(), B.Step(host, f, s).state.regs[inst.ra()]);
  }

  function ValueOf(regs: seq<i64>, o: Operand): i64
    requires o.V? ==> o.v < |regs|
  {
    match o case V(v) => regs[v] case K(k) => k
  }

  lemma OperandAgrees(regs: seq<i64>, vars: map<Var, Val>, os: seq<Operand>)
    requires RegsIn(regs, vars) && forall i :: 0 <= i < |os| && os[i].V? ==> os[i].v < |regs|
    ensures Reads(vars, os, seq(|os|, i requires 0 <= i < |os| => ValueOf(regs, os[i])))
  {
    hide ShapeOf;
    forall i | 0 <= i < |os| ensures OperandVal(vars, os[i]) == Some(ValueOf(regs, os[i])) {
      if os[i].V? {
        RegRead(regs, vars, os[i].v);
      }
    }
  }

  // The values passed are the ones the interpreter passes.
  lemma ArgsSame(f: B.Function, inst: B.Instruction, regs: seq<i64>, vs: seq<i64>)
    requires B.ConstantsOk(f, inst) && B.RegsBelow(inst, |regs|) && |vs| == |HelperOperands(f, inst)|
    requires forall i :: 0 <= i < |vs| ==> vs[i] == ValueOf(regs, HelperOperands(f, inst)[i])
    ensures match inst.op
      case DefineGlobal => vs == [f.constants[inst.n()], regs[inst.ra()]]
      case GetGlobal => vs == [f.constants[inst.n()]]
      case SetGlobal => vs == [regs[inst.ra()], f.constants[inst.n()]]
      case GetProperty => vs == [regs[inst.rb()], f.constants[inst.n()]]
      case SetProperty => vs == [regs[inst.ra()], regs[inst.rc()], f.constants[inst.n()]]
      case SetIndex => vs == [regs[inst.ra()], regs[inst.rb()], regs[inst.rc()]]
      case DefineStruct => vs == [f.constants[inst.n()], f.constants[inst.ra()], f.constants[inst.rb()]]
      case _ => vs == B.OperandsOf(inst, regs)
  {
    hide B.HelperName;
  }

  lemma HelperAgrees<W>(host: Host<W>, f: B.Function, s: B.State<W>, d: Data<W>)
    requires Ready(f, s, d)
    requires var op := f.code[s.pc].op;
      !(op.LoadConst? || op.LoadNull? || op.LoadBool? || op.Move? || op.MakeArray? || op.MakeObject?)
    ensures StraightAgrees(host, f, s, d)
  {
    hide B.HelperName, RegsIn, ExecCode, Reads, HelperOperands, ExecInst, Acceptable;
    var inst := f.code[s.pc];
    var os := HelperOperands(f, inst);
    OperandsBelow(f, |s.regs|, inst);
    OperandAgrees(s.regs, d.vars, os);
    var vs := seq(|os|, i requires 0 <= i < |os| => ValueOf(s.regs, os[i]));
    HelperRuns(host, inst, os, vs, d);
    RegPut(s.regs, d.vars, inst.ra(), host.callWord(B.HelperName(inst.op), vs, s.world).0);
    ArgsSame(f, inst, s.regs, vs);
  }

  // What the caller finds when the code returns because of a call or an await: the pc, the
  // registers named, and every register in its slot.
  ghost predicate Reported<W>(kind: B.YieldKind, s: B.State<W>, value: Option<Val>, d: Data<W>)
  {
    && Spilled(d.frame, s.regs, 0, |s.regs|) && d.world == s.world && s.pc < 0x8000_0000
    && "ip" in d.outs && d.outs["ip"] == s.pc as i64
    && match kind
       case ForCall(dest, func, argCount) =>
         && value == Some(I(STATUS_CALL))
         && "dest" in d.outs && d.outs["dest"] as int == dest
         && "func" in d.outs && d.outs["func"] as int == func
         && "args" in d.outs && d.outs["args"] == argCount
       case ForAwait(promise) =>
         value == Some(I(STATUS_SUSPEND)) && "func" in d.outs && d.outs["func"] as int == promise
  }

  // The native code ends, with this value and data, as the interpreter's frame does.
  ghost predicate SameEnd<W>(o: B.Outcome<W>, value: Option<Val>, d: Data<W>)
  {
    match o
    case Running(_) => false
    case Yielded(kind, s) => Reported(kind, s, value, d)
    case Returned(v, w) => value == Some(I(STATUS_RETURN)) && "ret" in d.outs && d.outs["ret"] == v && d.world == w
    case Threw(w) => value == Some(I(STATUS_THROW)) && d.world == w
  }

  ghost predicate SameOutcome<W>(o: B.Outcome<W>, r: M.Result<W>)
  {
    match o
    case Running(s) => r.Next? && r.pc == s.pc && Agree(s, r.data)
    case _ => r.Ended? && SameEnd(o, r.value, r.data)
  }

  lemma StoreOutRuns<W>(host: Host<W>, cell: string, o: Operand, rest: seq<Inst>, d: Data<W>)
    requires OperandVal(d.vars, o).Some?
    ensures ExecCode(host, [StoreOut(cell, o)] + rest, d)
      == ExecCode(host, rest, d.(outs := d.outs[cell := OperandVal(d.vars, o).value]))
  {
    var code := [StoreOut(cell, o)] + rest;
    assert code[0] == StoreOut(cell, o) && code[1..] == rest;
  }

  lemma CallReports<W>(host: Host<W>, s: B.State<W>, d: Data<W>, inst: B.Instruction)
    requires Agree(s, d) && s.pc < 0x8000_0000
    ensures
      var outs := [StoreOut("ip", K(s.pc as i64)), StoreOut("dest", K(inst.ra() as i64)),
                   StoreOut("func", K(inst.rb() as i64)), StoreOut("args", K(inst.operand as i64))];
      var e := ExecCode(host, SpillFrom(0, |s.regs|) + outs, d);
      e.Done? && Reported(B.ForCall(inst.ra(), inst.rb(), inst.operand as i64), s, Some(I(STATUS_CALL)), e.data)
  {
    hide SpillFrom, RegsIn, Spilled, ExecCode, B.HelperName, ProgramOf, M.Step, M.Run;
    var o1, o2, o3, o4 := StoreOut("ip", K(s.pc as i64)), StoreOut("dest", K(inst.ra() as i64)),
                          StoreOut("func", K(inst.rb() as i64)), StoreOut("args", K(inst.operand as i64));
    SpillWrites(host, s.regs, d, 0, |s.regs|);
    var d0 := ExecCode(host, SpillFrom(0, |s.regs|), d).data;
    ExecAppend(host, SpillFrom(0, |s.regs|), [o1, o2, o3, o4], d);
    assert [o1, o2, o3, o4] == [o1] + ([o2] + ([o3] + [o4]));
    var d1 := d0.(outs := d0.outs["ip" := s.pc as i64]);
    var d2 := d1.(outs := d1.outs["dest" := inst.ra() as i64]);
    var d3 := d2.(outs := d2.outs["func" := inst.rb() as i64]);
    StoreOutRuns(host, "ip", o1.out, [o2] + ([o3] + [o4]), d0);
    StoreOutRuns(host, "dest", o2.out, [o3] + [o4], d1);
    StoreOutRuns(host, "func", o3.out, [o4], d2);
    ExecOne(host, o4, d3);
  }

  lemma AwaitReports<W>(host: Host<W>, s: B.State<W>, d: Data<W>, inst: B.Instruction)
    requires Agree(s, d) && s.pc < 0x8000_0000
    ensures
      var outs := [StoreOut("ip", K(s.pc as i64)), StoreOut("func", K(inst.ra() as i64))];
      var e := ExecCode(host, SpillFrom(0, |s.regs|) + outs, d);
      e.Done? && Reported(B.ForAwait(inst.ra()), s, Some(I(STATUS_SUSPEND)), e.data)
  {
    hide SpillFrom, RegsIn, Spilled, ExecCode, B.HelperName;
    var o1, o2 := StoreOut("ip", K(s.pc as i64)), StoreOut("func", K(inst.ra() as i64));
    SpillWrites(host, s.regs, d, 0, |s.regs|);
    var d0 := ExecCode(host, SpillFrom(0, |s.regs|), d).data;
    ExecAppend(host, SpillFrom(0, |s.regs|), [o1, o2], d);
    assert [o1, o2] == [o1] + [o2];
    StoreOutRuns(host, "ip", o1.out, [o2], d0);
    ExecOne(host, o2, d0.(outs := d0.outs["ip" := s.pc as i64]));
  }

  lemma StraightStep<W>(host: Host<W>, f: B.Function, s: B.State<W>, d: Data<W>)
    requires Ready(f, s, d)
    ensures StraightAgrees(host, f, s, d)
  {
    hide StraightAgrees, B.HelperName, B.WellFormed;
    var op := f.code[s.pc].op;
    if op.MakeArray? || op.MakeObject? {
      LiteralAgrees(host, f, s, d);
    } else if op.LoadConst? || op.LoadNull? || op.LoadBool? || op.Move? {
      MoveAgrees(host, f, s, d);
    } else {
      HelperAgrees(host, f, s, d);
    }
  }

  lemma WellFormedOf(f: B.Function)
    requires Acceptable(f)
    ensures B.WellFormed(f)
  {
  }

  lemma ShapeHere(f: B.Function, n: nat, pc: nat)
    requires Acceptable(f) && pc < |f.code|
    ensures B.ConstantsOk(f, f.code[pc]) && B.TargetOk(f, pc, f.code[pc]) && ProgramOf(f, n).At(pc) == ShapeOf(f, n, pc)
  {
    hide ShapeOf;
  }

  lemma LeaveShape(f: B.Function, n: nat, pc: nat)
    requires Acceptable(f) && pc < |f.code| && (f.code[pc].op.Return? || f.code[pc].op.Throw?)
    ensures ProgramOf(f, n).At(pc) ==
      if f.code[pc].op.Return? then M.Stop([StoreOut("ret", V(f.code[pc].ra()))], ReturnConst(STATUS_RETURN))
      else M.Stop([], ReturnConst(STATUS_THROW))
  {
    hide B.HelperName, Lower, ProgramOf, M.Run;
    ShapeHere(f, n, pc);
    hide ProgramOf, Acceptable;
  }

  lemma LeaveSteps<W>(host: Host<W>, f: B.Function, s: B.State<W>)
    requires B.WellFormed(f) && s.pc < |f.code| && B.RegsBelow(f.code[s.pc], |s.regs|)
    requires f.code[s.pc].op.Return? || f.code[s.pc].op.Throw?
    ensures f.code[s.pc].op.Return? ==> f.code[s.pc].ra() < |s.regs|
    ensures B.Step(host, f, s) == if f.code[s.pc].op.Return? then B.Returned(s.regs[f.code[s.pc].ra()], s.world)
      else B.Threw(s.world)
  {
    hide B.WellFormed, B.HelperName, B.OperandsOf, Acceptable;
  }

  lemma ExecNone<W>(host: Host<W>, d: Data<W>)
    ensures ExecCode(host, [], d) == Done(d)
  {
    hide ExecInst;
  }

  lemma LeaveAgrees<W>(host: Host<W>, f: B.Function, s: B.State<W>, d: Data<W>)
    requires Acceptable(f) && B.WellFormed(f) && Agree(s, d) && s.pc < |f.code| && B.RegsBelow(f.code[s.pc], |s.regs|)
    requires var op := f.code[s.pc].op; op.Return? || op.Throw?
    ensures SameOutcome(B.Step(host, f, s), M.Step(host, ProgramOf(f, |s.regs|), s.pc, d))
  {
    hide SpillFrom, RegsIn, Lower, ExecCode, ExecInst, Reported, ProgramOf, ShapeOf, Acceptable, B.Step, B.WellFormed;
    LeaveShape(f, |s.regs|, s.pc);
    LeaveSteps(host, f, s);
    var inst := f.code[s.pc];
    if inst.op.Return? {
      RegRead(s.regs, d.vars, inst.ra());
      var store := StoreOut("ret", V(inst.ra()));
      assert [store] + [] == [store];
      StoreOutRuns(host, "ret", store.out, [], d);
      ExecNone(host, d.(outs := d.outs["ret" := s.regs[inst.ra()]]));
    } else {
      ExecNone(host, d);
    }
  }

  lemma YieldAgrees<W>(host: Host<W>, f: B.Function, s: B.State<W>, d: Data<W>)
    requires Acceptable(f) && B.WellFormed(f) && Agree(s, d) && s.pc < |f.code| && B.RegsBelow(f.code[s.pc], |s.regs|)
    requires f.code[s.pc].op.Call? || f.code[s.pc].op.Await?
    ensures SameOutcome(B.Step(host, f, s), M.Step(host, ProgramOf(f, |s.regs|), s.pc, d))
  {
    hide SpillFrom, RegsIn, Lower, ExecCode, Reported, ProgramOf, ExecInst;
    ShapeHere(f, |s.regs|, s.pc);
    var inst := f.code[s.pc];
    if inst.op.Call? {
      CallReports(host, s, d, inst);
    } else {
      AwaitReports(host, s, d, inst);
    }
  }

  lemma JumpAgrees<W>(host: Host<W>, f: B.Function, s: B.State<W>, d: Data<W>)
    requires Acceptable(f) && B.WellFormed(f) && Agree(s, d) && s.pc < |f.code| && B.RegsBelow(f.code[s.pc], |s.regs|)
    requires var op := f.code[s.pc].op; op.Jump? || op.Loop? || op.JumpIfFalse?
    ensures SameOutcome(B.Step(host, f, s), M.Step(host, ProgramOf(f, |s.regs|), s.pc, d))
  {
    hide SpillFrom, RegsIn, Lower, ExecCode, ProgramOf, B.HelperName, ExecInst, M.Run;
    ShapeHere(f, |s.regs|, s.pc);
    RegRead(s.regs, d.vars, f.code[s.pc].ra());
  }

  lemma StraightSame<W>(host: Host<W>, f: B.Function, s: B.State<W>, d: Data<W>)
    requires Acceptable(f) && B.WellFormed(f) && Agree(s, d) && s.pc < |f.code|
    requires B.RegsBelow(f.code[s.pc], |s.regs|) && IsStraight(f.code[s.pc].op)
    ensures SameOutcome(B.Step(host, f, s), M.Step(host, ProgramOf(f, |s.regs|), s.pc, d))
  {
    hide B.Step, Lower, ExecCode, Agree, ProgramOf;
    ShapeHere(f, |s.regs|, s.pc);
    StraightStep(host, f, s, d);
  }

  lemma StepAgrees<W>(host: Host<W>, f: B.Function, s: B.State<W>, d: Data<W>)
    requires Acceptable(f) && B.WellFormed(f) && Agree(s, d) && B.Fits(f, |s.regs|) && s.pc <= |f.code|
    ensures SameOutcome(B.Step(host, f, s), M.Step(host, ProgramOf(f, |s.regs|), s.pc, d))
  {
    hide Lower, ShapeOf, Acceptable;
    if s.pc == |f.code| {
      ExecOne(host, StoreOut("ret", K(B.TAG_NULL)), d);
    } else {
      var op := f.code[s.pc].op;
      if IsStraight(op) {
        StraightSame(host, f, s, d);
      } else if op.Jump? || op.Loop? || op.JumpIfFalse? {
        JumpAgrees(host, f, s, d);
      } else if op.Call? || op.Await? {
        YieldAgrees(host, f, s, d);
      } else {
        LeaveAgrees(host, f, s, d);
      }
    }
  }

  lemma {:induction false} RunAgrees<W>(host: Host<W>, f: B.Function, s: B.State<W>, d: Data<W>, m: nat)
    requires Acceptable(f) && B.WellFormed(f) && Agree(s, d) && B.Fits(f, |s.regs|) && s.pc <= |f.code|
    ensures SameOutcome(B.Run(host, f, s, m), M.Run(host, ProgramOf(f, |s.regs|), s.pc, d, m))
    decreases m
  {
    hide B.Step, M.Step, Agree, ProgramOf, Acceptable, B.WellFormed, SameEnd, B.HelperName;
    if m > 0 {
      StepAgrees(host, f, s, d);
      B.StepKeepsRegs(host, f, s);
      match B.Step(host, f, s) {
        case Running(s') => RunAgrees(host, f, s', M.Step(host, ProgramOf(f, |s.regs|), s.pc, d).data, m - 1);
        case _ =>
      }
    }
  }

  // ---------------------------------------------------------------- where an entry leads

  // The pc the code goes to when it is entered with start pc ip.
  function DispatchPc(f: B.Function, ip: nat): nat
  {
    if IsResumeTarget(f, ip) then ip else 0
  }

  ghost predicate SlotsPresent(frame: map<nat, i64>, n: nat)
  {
    forall i: nat :: i < n ==> i in frame
  }

  // The registers a function begins with: its arguments and nulls.
  function FreshRegs(frame: map<nat, i64>, n: nat, arity: nat): seq<i64>
    requires forall i: nat :: i < n ==> i in frame
  {
    seq(n, i requires 0 <= i < n => if i < arity then frame[i] else B.TAG_NULL)
  }

  // The registers a resumed function goes on with.
  function SavedRegs(frame: map<nat, i64>, n: nat): seq<i64>
    requires forall i: nat :: i < n ==> i in frame
  {
    seq(n, i requires 0 <= i < n => frame[i])
  }

  ghost function StartRegs(f: B.Function, frame: map<nat, i64>, n: nat, ip: nat): seq<i64>
    requires SlotsPresent(frame, n)
  {
    if ip != 0 && CanResume(f) then SavedRegs(frame, n) else FreshRegs(frame, n, f.arity)
  }

  // Registers i to n - 1 are loaded.
  ghost predicate LoadedFrom(regs: seq<i64>, vars: map<Var, Val>, i: nat)
  {
    forall r: nat {:trigger RegIs(regs, vars, r)} :: i <= r < |regs| ==> RegIs(regs, vars, r)
  }

  lemma {:induction false} ReloadLoads<W>(host: Host<W>, d: Data<W>, n: nat, i: nat)
    requires SlotsPresent(d.frame, n)
    ensures
      var e := ExecCode(host, ReloadFrom(i, n), d);
      && e.Done? && e.data == d.(vars := e.data.vars) && LoadedFrom(SavedRegs(d.frame, n), e.data.vars, i)
      && (forall v: nat :: (v < i || v >= n) && v in d.vars ==> v in e.data.vars && e.data.vars[v] == d.vars[v])
    decreases n - i
  {
    hide Lower, B.WellFormed, Acceptable;
    if i < n {
      var d1 := d.(vars := d.vars[i := I(d.frame[i])]);
      ReloadLoads(host, d1, n, i + 1);
      var e := ExecCode(host, ReloadFrom(i + 1, n), d1);
      forall r: nat | i <= r < n ensures RegIs(SavedRegs(d.frame, n), e.data.vars, r) {
        assert i in d1.vars;
        assert r > i ==> RegIs(SavedRegs(d1.frame, n), e.data.vars, r);
      }
    }
  }

  lemma LoadedOne(regs: seq<i64>, vars: map<Var, Val>, i: nat)
    requires LoadedFrom(regs, vars, i + 1) && i < |regs| && RegIs(regs, vars, i)
    ensures LoadedFrom(regs, vars, i)
  {
    hide RegIs;
  }

  lemma {:induction false} ArgsLoad<W>(host: Host<W>, d: Data<W>, n: nat, arity: nat, i: nat)
    requires SlotsPresent(d.frame, n)
    ensures
      var e := ExecCode(host, ArgsFrom(i, n, arity), d);
      && e.Done? && e.data == d.(vars := e.data.vars) && LoadedFrom(FreshRegs(d.frame, n, arity), e.data.vars, i)
      && (forall v: nat :: (v < i || v >= n) && v in d.vars ==> v in e.data.vars && e.data.vars[v] == d.vars[v])
    decreases n - i
  {
    hide B.HelperName, Lower, Acceptable, M.Step;
    if i < n {
      var v := if i < arity then d.frame[i] else B.TAG_NULL;
      var d1 := d.(vars := d.vars[i := I(v)]);
      ArgsLoad(host, d1, n, arity, i + 1);
      var e := ExecCode(host, ArgsFrom(i + 1, n, arity), d1);
      assert ExecCode(host, ArgsFrom(i, n, arity), d) == e;
      hide ExecCode, ArgsFrom;
      assert i in d1.vars && RegIs(FreshRegs(d.frame, n, arity), e.data.vars, i);
      LoadedOne(FreshRegs(d.frame, n, arity), e.data.vars, i);
    }
  }

  lemma EntryLoads<W>(host: Host<W>, d: Data<W>, n: nat, arity: nat, ip: i64)
    requires SlotsPresent(d.frame, n) && |d.params| > 3 && d.params[3] == I(ip)
    ensures
      var e := ExecCode(host, EntryCode(n, arity), d);
      && e.Done? && e.data == d.(vars := e.data.vars) && RegsIn(FreshRegs(d.frame, n, arity), e.data.vars)
      && IntVal(e.data.vars, StartVar(n)) == Some(ip)
  {
    hide B.HelperName, Acceptable, M.Step, M.Run;
    var bind := BindParam(StartVar(n), 3);
    var d1 := d.(vars := d.vars[StartVar(n) := I(ip)]);
    ArgsLoad(host, d1, n, arity, 0);
    assert EntryCode(n, arity)[0] == bind && EntryCode(n, arity)[1..] == ArgsFrom(0, n, arity);
    assert StartVar(n) in d1.vars;
  }

  lemma TestRuns<W>(host: Host<W>, blocks: seq<Block>, c: Config<W>, test: Test, y: BlockId, no: BlockId, x: i64)
    requires M.EndsWith(blocks, M.Pos(c.block, c.index), BrIf(test, y, no)) && IntVal(c.data.vars, test.v) == Some(x)
    ensures Run(host, blocks, c, 1) == Running(Config(if Holds(test, x) then y else no, 0, c.data))
  {
    hide ExecInst;
    OneStep(host, blocks, c);
  }

  // The chain of tests sends a start pc in `order` to its label, and any other to its end.
  lemma {:induction false} ChainRuns<W>(host: Host<W>, blocks: seq<Block>, labels: map<nat, BlockId>, v: Var, q: M.Pos,
                                        order: seq<nat>, r: M.Pos, d: Data<W>, ip: nat) returns (n: nat)
    requires ChainTo(blocks, labels, v, q, order, r)
    requires ip < 0x8000_0000 && IntVal(d.vars, v) == Some(ip as i64)
    ensures Run(host, blocks, Config(q.block, q.index, d), n)
            == Running(if ip in order && ip in labels then Config(labels[ip], 0, d) else Config(r.block, r.index, d))
    ensures ip in order ==> ip in labels
    decreases |order|
  {
    hide Step, B.HelperName, Lower, B.Step, ShapeOf, ProgramOf, ExecInst, Acceptable, M.Run;
    var c := Config(q.block, q.index, d);
    n := 0;
    if order != [] {
      var init, t := order[..|order| - 1], order[|order| - 1];
      assert order == init + [t];
      var mid: M.Pos :| ChainTo(blocks, labels, v, q, init, mid)
                        && M.EndsWith(blocks, mid, BrIf(Equals(v, t as i64), labels[t], r.block));
      n := ChainRuns(host, blocks, labels, v, q, init, mid, d, ip);
      if ip !in init {
        var c1 := Config(mid.block, mid.index, d);
        TestRuns(host, blocks, c1, Equals(v, t as i64), labels[t], r.block, ip as i64);
        RunAdds(host, blocks, c, n, 1);
        n := n + 1;
      }
    }
  }

  lemma JumpRuns<W>(host: Host<W>, blocks: seq<Block>, c: Config<W>, b: BlockId)
    requires M.EndsWith(blocks, M.Pos(c.block, c.index), JumpTo(b))
    ensures Run(host, blocks, c, 1) == Running(Config(b, 0, c.data))
  {
    hide ExecInst;
    OneStep(host, blocks, c);
  }

  // The caller enters with start pc ip as the fourth parameter and a slot for every register.
  ghost predicate Entering<W>(c: Config<W>, entry: BlockId, n: nat, ip: nat)
  {
    && c.block == entry && c.index == 0 && ip < 0x8000_0000 && SlotsPresent(c.data.frame, n)
    && |c.data.params| > 3 && c.data.params[3] == I(ip as i64)
  }

  // What the interpreter starts from when the code is entered.
  ghost function StartState<W>(f: B.Function, n: nat, c: Config<W>, ip: nat): B.State<W>
    requires SlotsPresent(c.data.frame, n)
  {
    B.State(DispatchPc(f, ip), StartRegs(f, c.data.frame, n, ip), c.data.world)
  }

  lemma AtLabel(f: B.Function, n: nat, L: M.Layout, pc: nat)
    requires Acceptable(f) && M.Laid(ProgramOf(f, n), L) && pc in L.labels && pc < |f.code|
    ensures M.AtPc(ProgramOf(f, n), L, M.Pos(L.labels[pc], 0), pc)
  {
    hide M.Laid, ShapeOf, Acceptable;
    M.LabelOf(ProgramOf(f, n), L, pc);
  }

  lemma ResumeInside(f: B.Function, pc: nat)
    requires Acceptable(f)
    ensures DispatchPc(f, pc) < |f.code| && !IsResumeTarget(f, 0)
  {
  }

  lemma {:induction false} ReloadLength(n: nat, i: nat)
    requires i <= n
    ensures |ReloadFrom(i, n)| == n - i
    decreases n - i
  {
    if i < n {
      ReloadLength(n, i + 1);
    }
  }

  lemma ReloadAt<W>(host: Host<W>, blocks: seq<Block>, c: Config<W>, n: nat)
    requires M.CodeAt(blocks, M.Pos(c.block, c.index), ReloadFrom(0, n)) && c.index == 0 && |ReloadFrom(0, n)| == n
    requires ExecCode(host, ReloadFrom(0, n), c.data).Done?
    ensures Run(host, blocks, c, n) == Running(Config(c.block, n, ExecCode(host, ReloadFrom(0, n), c.data).data))
  {
    hide Step, ExecCode;
    CodeRuns(host, blocks, c, ReloadFrom(0, n));
  }

  lemma LoadedAll(regs: seq<i64>, vars: map<Var, Val>)
    requires LoadedFrom(regs, vars, 0)
    ensures RegsIn(regs, vars)
  {
  }

  // Entered at the start of the dispatch with everything loaded, the code gets to its pc.
  lemma DispatchRuns<W>(host: Host<W>, f: B.Function, n: nat, L: M.Layout, q: M.Pos, d: Data<W>, ip: nat)
    returns (k: nat)
    requires Acceptable(f) && M.Laid(ProgramOf(f, n), L) && DispatchAt(f, n, L.blocks, L.labels, q)
    requires forall pc: nat :: IsResumeTarget(f, pc) ==> pc in L.labels
    requires SlotsPresent(d.frame, n) && ip < 0x8000_0000 && IntVal(d.vars, StartVar(n)) == Some(ip as i64)
    requires RegsIn(FreshRegs(d.frame, n, f.arity), d.vars)
    ensures
      var o := Run(host, L.blocks, Config(q.block, q.index, d), k);
      && o.Running? && M.AtPc(ProgramOf(f, n), L, M.Pos(o.config.block, o.config.index), DispatchPc(f, ip))
      && Agree(B.State(DispatchPc(f, ip), StartRegs(f, d.frame, n, ip), d.world), o.config.data)
  {
    hide Step, M.Laid, IsResumeTarget, ProgramOf, M.AtPc, ChainTo, RegsIn, M.EndsWith, M.CodeAt, ExecCode, ReloadFrom,
      Acceptable, B.HelperName, Lower, B.Step, ShapeOf, ExecInst, B.WellFormed, M.Step, M.Run;
    var c := Config(q.block, q.index, d);
    ResumeInside(f, ip);
    k := 1;
    if !CanResume(f) {
      JumpRuns(host, L.blocks, c, L.labels[0]);
      AtLabel(f, n, L, 0);
    } else {
      var b: BlockId, order: seq<nat>, r: M.Pos :|
        && 0 in L.labels && M.EndsWith(L.blocks, q, BrIf(Zero(StartVar(n)), L.labels[0], b))
        && M.CodeAt(L.blocks, M.Pos(b, 0), ReloadFrom(0, n))
        && ChainTo(L.blocks, L.labels, StartVar(n), M.Pos(b, n), order, r)
        && (forall t :: t in order <==> IsResumeTarget(f, t))
        && M.EndsWith(L.blocks, r, JumpTo(L.labels[0]));
      TestRuns(host, L.blocks, c, Zero(StartVar(n)), L.labels[0], b, ip as i64);
      if ip == 0 {
        AtLabel(f, n, L, 0);
      } else {
        var c1 := Config(b, 0, d);
        ReloadLength(n, 0);
        ReloadLoads(host, d, n, 0);
        ReloadAt(host, L.blocks, c1, n);
        var d2 := ExecCode(host, ReloadFrom(0, n), d).data;
        RunAdds(host, L.blocks, c, 1, n);
        LoadedAll(SavedRegs(d.frame, n), d2.vars);
        var k2 := ChainRuns(host, L.blocks, L.labels, StartVar(n), M.Pos(b, n), order, r, d2, ip);
        RunAdds(host, L.blocks, c, 1 + n, k2);
        k := 1 + n + k2;
        if ip in order {
          AtLabel(f, n, L, ip);
        } else {
          JumpRuns(host, L.blocks, Config(r.block, r.index, d2), L.labels[0]);
          RunAdds(host, L.blocks, c, k, 1);
          k := k + 1;
          AtLabel(f, n, L, 0);
        }
      }
    }
  }

  // From the entry block to the pc the start pc selects, with the registers in place.
  lemma EntryRuns<W>(host: Host<W>, f: B.Function, n: nat, L: M.Layout, entry: BlockId, types: seq<ClifType>,
      c: Config<W>, ip: nat)
    returns (k: nat)
    requires Compiled(f, n, L, entry, types) && Entering(c, entry, n, ip)
    ensures
      var o := Run(host, L.blocks, c, k);
      && o.Running? && M.AtPc(ProgramOf(f, n), L, M.Pos(o.config.block, o.config.index), DispatchPc(f, ip))
      && Agree(StartState(f, n, c, ip), o.config.data)
  {
    hide Step, M.Laid, IsResumeTarget, ProgramOf, M.AtPc, RegsIn, ExecCode, EntryCode, DispatchAt, Acceptable;
    EntryLoads(host, c.data, n, f.arity, ip as i64);
    CodeRuns(host, L.blocks, c, EntryCode(n, f.arity));
    var len := |EntryCode(n, f.arity)|;
    var d := ExecCode(host, EntryCode(n, f.arity), c.data).data;
    k := DispatchRuns(host, f, n, L, M.Pos(entry, len), d, ip);
    RunAdds(host, L.blocks, c, len, k);
    k := len + k;
  }

  lemma StartFacts<W>(f: B.Function, n: nat, L: M.Layout, entry: BlockId, types: seq<ClifType>, c: Config<W>, ip: nat)
    requires Compiled(f, n, L, entry, types) && Entering(c, entry, n, ip)
    ensures B.WellFormed(f) && M.ProgramOk(types, ProgramOf(f, n)) && M.Laid(ProgramOf(f, n), L)
    ensures var s := StartState(f, n, c, ip); |s.regs| == n && s.pc < |f.code| && B.Fits(f, |s.regs|)
    ensures |ProgramOf(f, n).shapes| == |f.code|
  {
    hide ShapeOf, M.Laid, M.ProgramOk, B.HelperName, Lower, M.Step;
    WellFormedOf(f);
    ProgramTyped(types, f, n);
    ResumeInside(f, ip);
  }

  lemma CompiledAcceptable(f: B.Function, n: nat, L: M.Layout, entry: BlockId, types: seq<ClifType>)
    requires Compiled(f, n, L, entry, types)
    ensures Acceptable(f)
  {
    hide B.HelperName, Lower, ShapeOf, ProgramOf, Acceptable;
  }

  // Entered at 0, the native code does what the interpreter does from pc 0 with the arguments in
  // the slots and null elsewhere; entered at a resume target, what it does from there with the
  // registers in the slots.  Whatever the interpreter's frame ends with, the code ends with ...
  lemma EntryKept<W>(host: Host<W>, f: B.Function, n: nat, L: M.Layout, entry: BlockId, types: seq<ClifType>,
      c: Config<W>, ip: nat, m: nat)
    returns (k: nat)
    requires Compiled(f, n, L, entry, types) && Entering(c, entry, n, ip)
    requires B.WellFormed(f) && B.Fits(f, |StartState(f, n, c, ip).regs|)
    requires !B.Run(host, f, StartState(f, n, c, ip), m).Running?
    ensures
      var o := Run(host, L.blocks, c, k);
      o.Returned? && SameEnd(B.Run(host, f, StartState(f, n, c, ip), m), o.value, o.data)
  {
    hide Step, B.Step, M.Step, M.Laid, ProgramOf, M.AtPc, Compiled, B.WellFormed, B.Fits, M.ProgramOk, Agree, SameEnd,
      B.HelperName, Acceptable;
    var e := EntryRuns(host, f, n, L, entry, types, c, ip);
    StartFacts(f, n, L, entry, types, c, ip);
    CompiledAcceptable(f, n, L, entry, types);
    var c' := Run(host, L.blocks, c, e).config;
    RunAgrees(host, f, StartState(f, n, c, ip), c'.data, m);
    var r := M.ResultKept(host, types, ProgramOf(f, n), L, c', DispatchPc(f, ip), m);
    RunAdds(host, L.blocks, c, e, r);
    k := e + r;
  }

  // ... and whatever the code ends with, the interpreter's frame ends with; the code never traps
  // or breaks, and runs for ever when the interpreter does.
  lemma EntryReflected<W>(host: Host<W>, f: B.Function, n: nat, L: M.Layout, entry: BlockId, types: seq<ClifType>,
      c: Config<W>, ip: nat, k: nat)
    returns (m: nat)
    requires Compiled(f, n, L, entry, types) && Entering(c, entry, n, ip)
    requires B.WellFormed(f) && B.Fits(f, |StartState(f, n, c, ip).regs|)
    requires !Run(host, L.blocks, c, k).Running?
    ensures
      var o := Run(host, L.blocks, c, k);
      o.Returned? && SameEnd(B.Run(host, f, StartState(f, n, c, ip), m), o.value, o.data)
  {
    hide Step, B.Step, M.Step, M.Laid, ProgramOf, M.AtPc, Compiled, B.WellFormed, B.Fits, M.ProgramOk, Agree, SameEnd,
      B.HelperName, Acceptable;
    var e := EntryRuns(host, f, n, L, entry, types, c, ip);
    StartFacts(f, n, L, entry, types, c, ip);
    CompiledAcceptable(f, n, L, entry, types);
    var c' := Run(host, L.blocks, c, e).config;
    if k < e {
      RunEnds(host, L.blocks, c, k, e);
    }
    RunAdds(host, L.blocks, c, e, k - e);
    m := M.ResultReflected(host, types, ProgramOf(f, n), L, c', DispatchPc(f, ip), k - e);
    RunAgrees(host, f, StartState(f, n, c, ip), c'.data, m);
  }

  // After a yield at pc the code can be entered again at pc + 1, exactly when an instruction
  // follows; a call or an await that ends the function is resumed at pc 0 instead.
  lemma ResumeExact(f: B.Function, pc: nat)
    requires Acceptable(f) && pc < |f.code| && Suspends(f.code[pc])
    ensures DispatchPc(f, pc + 1) == pc + 1 <==> pc + 1 < |f.code|
    ensures pc + 1 == |f.code| ==> DispatchPc(f, pc + 1) == 0
  {
    hide Acceptable;
  }

  // ---------------------------------------------------------------- runs that are cut by yields

  // What the VM does with a call or an await before it enters the code again: it may change any
  // register and the world.
  type Service<!W> = (B.YieldKind, nat, seq<i64>, W) -> (seq<i64>, W)

  ghost predicate ServiceKeepsLength<W>(service: Service<W>, kind: B.YieldKind, pc: nat, regs: seq<i64>, w: W)
  {
    |service(kind, pc, regs, w).0| == |regs|
  }

  ghost predicate ServiceOk<W(!new)>(service: Service<W>)
  {
    forall kind, pc, regs, w :: ServiceKeepsLength(service, kind, pc, regs, w)
  }

  function Serviced<W>(service: Service<W>, kind: B.YieldKind, s: B.State<W>): B.State<W>
  {
    var (regs, w) := service(kind, s.pc, s.regs, s.world);
    B.State(s.pc + 1, regs, w)
  }

  // The uncut run: an interpreter for which calls and awaits are ordinary instructions.
  ghost function Uncut<W(!new)>(host: Host<W>, f: B.Function, service: Service<W>, s: B.State<W>, m: nat): B.Outcome<W>
    requires B.WellFormed(f) && B.Fits(f, |s.regs|) && ServiceOk(service)
    decreases m
  {
    if m == 0 then B.Running(s)
    else
      B.StepKeepsRegs(host, f, s);
      match B.Step(host, f, s)
      case Running(s') => Uncut(host, f, service, s', m - 1)
      case Yielded(kind, s') =>
        assert ServiceKeepsLength(service, kind, s'.pc, s'.regs, s'.world);
        Uncut(host, f, service, Serviced(service, kind, s'), m - 1)
      case other => other
  }

  function FrameOf(regs: seq<i64>): map<nat, i64>
  {
    map i: nat | i < |regs| :: regs[i]
  }

  ghost function EntryConfig<W>(entry: BlockId, params: seq<Val>, frame: map<nat, i64>, outs: map<string, i64>,
      w: W): Config<W>
  {
    Config(entry, 0, Data(map[], params, frame, outs, w))
  }

  // The parameters of the native function; the fourth is the pc to start at.
  function Params(ip: nat): seq<Val>
    requires ip < 0x8000_0000
  {
    [I(0), I(0), I(0), I(ip as i64)]
  }

  // What the VM takes a status and the reported cells for: 0 is a call, 1 a return, 3 a suspension
  // (crates/eronom-vm/src/execute/loop_jit.rs:130, 330, 356).
  function ReportedKind(value: Option<Val>, outs: map<string, i64>): Option<B.YieldKind>
  {
    if value == Some(I(0)) && "dest" in outs && "func" in outs && "args" in outs && outs["dest"] >= 0
      && outs["func"] >= 0 then
      Some(B.ForCall(outs["dest"] as int, outs["func"] as int, outs["args"]))
    else if value == Some(I(3)) && "func" in outs && outs["func"] >= 0 then
      Some(B.ForAwait(outs["func"] as int))
    else None
  }

  // The VM's loop: run the code for as many steps as the next number of fuel says; after a yield
  // let the service act on the slots, and enter again at the reported pc plus one.
  ghost function Driven<W>(host: Host<W>, blocks: seq<Block>, entry: BlockId, n: nat, service: Service<W>, ip: nat,
                           frame: map<nat, i64>, outs: map<string, i64>, w: W, fuel: seq<nat>): Option<B.Outcome<W>>
    requires ip < 0x8000_0000
    decreases |fuel|
  {
    if fuel == [] then None
    else
      match Run(host, blocks, EntryConfig(entry, Params(ip), frame, outs, w), fuel[0])
      case Returned(value, d) =>
        if value == Some(I(1))
          then (if "ret" in d.outs then Some(B.Returned(d.outs["ret"], d.world)) else None)
        else if value == Some(I(-1)) then Some(B.Threw(d.world))
        else if ReportedKind(value, d.outs).Some? && "ip" in d.outs && 0 <= d.outs["ip"] < 0x7fff_ffff
          && SlotsPresent(d.frame, n) then
          var pc := d.outs["ip"] as int;
          var (regs, w') := service(ReportedKind(value, d.outs).value, pc, SavedRegs(d.frame, n), d.world);
          Driven(host, blocks, entry, n, service, pc + 1, d.frame + FrameOf(regs), d.outs, w', fuel[1..])
        else None
      case _ => None
  }

  // No call or await ends the function.
  ghost predicate ResumesEverywhere(f: B.Function)
  {
    forall pc :: 0 <= pc < |f.code| && Suspends(f.code[pc]) ==> pc + 1 < |f.code|
  }

  // What a reported yield says, read back from the cells and the slots.
  lemma ReportRead<W>(kind: B.YieldKind, s: B.State<W>, value: Option<Val>, d: Data<W>, n: nat)
    requires Reported(kind, s, value, d) && |s.regs| == n
    ensures ReportedKind(value, d.outs) == Some(kind) && SlotsPresent(d.frame, n) && SavedRegs(d.frame, n) == s.regs
    ensures value != Some(I(STATUS_RETURN)) && value != Some(I(STATUS_THROW))
    ensures "ip" in d.outs && d.outs["ip"] as int == s.pc
  {
    forall i: nat | i < n ensures i in d.frame && d.frame[i] == s.regs[i] {
      assert SlotIs(d.frame, s.regs, i);
    }
  }

  lemma ReEnter<W>(f: B.Function, n: nat, entry: BlockId, frame: map<nat, i64>, outs: map<string, i64>, s: B.State<W>,
      pc: nat)
    requires Acceptable(f) && ResumesEverywhere(f) && pc < |f.code| && Suspends(f.code[pc])
    requires |s.regs| == n && s.pc == pc + 1
    ensures
      var c := EntryConfig(entry, Params(pc + 1), frame + FrameOf(s.regs), outs, s.world);
      Entering(c, entry, n, pc + 1) && StartState(f, n, c, pc + 1) == s
  {
    assert IsResumeTarget(f, pc + 1);
    assert SavedRegs(frame + FrameOf(s.regs), n) == s.regs;
  }

  // A yield of the interpreter comes from a call or an await.
  lemma {:induction false} YieldSite<W>(host: Host<W>, f: B.Function, s: B.State<W>, m: nat)
    requires B.WellFormed(f) && B.Fits(f, |s.regs|) && B.Run(host, f, s, m).Yielded?
    ensures var y := B.Run(host, f, s, m).at; y.pc < |f.code| && Suspends(f.code[y.pc]) && |y.regs| == |s.regs|
    decreases m
  {
    hide B.Step, B.WellFormed;
    B.StepKeepsRegs(host, f, s);
    if B.Step(host, f, s).Running? {
      YieldSite(host, f, B.Step(host, f, s).state, m - 1);
    }
  }

  // The first step of an uncut run.
  lemma {:induction false} UncutNext<W(!new)>(host: Host<W>, f: B.Function, service: Service<W>, s: B.State<W>, m: nat)
    requires B.WellFormed(f) && B.Fits(f, |s.regs|) && ServiceOk(service)
    ensures var o := B.Step(host, f, s); o.Running? ==>
      |o.state.regs| == |s.regs| && Uncut(host, f, service, s, m + 1) == Uncut(host, f, service, o.state, m)
    ensures var o := B.Step(host, f, s); o.Yielded? ==>
      && |Serviced(service, o.kind, o.at).regs| == |s.regs|
      && Uncut(host, f, service, s, m + 1) == Uncut(host, f, service, Serviced(service, o.kind, o.at), m)
    ensures var o := B.Step(host, f, s); !o.Running? && !o.Yielded? ==> Uncut(host, f, service, s, m + 1) == o
  {
    hide B.Step, B.WellFormed;
    B.StepKeepsRegs(host, f, s);
    match B.Step(host, f, s)
    case Yielded(kind, y) => assert ServiceKeepsLength(service, kind, y.pc, y.regs, y.world);
    case _ =>
  }

  // An uncut run is the interpreter's run up to its first yield, and goes on after the service.
  lemma {:induction false} UncutSplits<W(!new)>(host: Host<W>, f: B.Function, service: Service<W>, s: B.State<W>,
      m: nat, k: nat)
    returns (j: nat)
    requires B.WellFormed(f) && B.Fits(f, |s.regs|) && ServiceOk(service)
    requires !B.Run(host, f, s, m).Running?
    ensures 0 < j <= m
    ensures match B.Run(host, f, s, m)
      case Yielded(kind, y) =>
        && |Serviced(service, kind, y).regs| == |s.regs|
        && Uncut(host, f, service, s, j + k) == Uncut(host, f, service, Serviced(service, kind, y), k)
      case o => Uncut(host, f, service, s, m) == o
    decreases m
  {
    hide B.Step, Uncut, Serviced, ServiceOk;
    B.StepKeepsRegs(host, f, s);
    match B.Step(host, f, s) {
      case Running(s') =>
        j := UncutSplits(host, f, service, s', m - 1, k);
        UncutNext(host, f, service, s, j + k);
        UncutNext(host, f, service, s, m - 1);
        j := j + 1;
      case Yielded(kind, y) =>
        j := 1;
        UncutNext(host, f, service, s, k);
      case _ =>
        j := m;
        UncutNext(host, f, service, s, m - 1);
    }
  }

  // When the code ends with the frame's end, so does the loop.
  lemma DrivenEnds<W>(host: Host<W>, blocks: seq<Block>, entry: BlockId, n: nat, service: Service<W>, ip: nat,
                      frame: map<nat, i64>, outs: map<string, i64>, w: W, fuel: seq<nat>, end: B.Outcome<W>)
    requires ip < 0x8000_0000 && fuel != [] && !end.Yielded?
    requires
      var o := Run(host, blocks, EntryConfig(entry, Params(ip), frame, outs, w), fuel[0]);
      o.Returned? && SameEnd(end, o.value, o.data)
    ensures Driven(host, blocks, entry, n, service, ip, frame, outs, w, fuel) == Some(end)
  {
    hide Run, EntryConfig, Params, ReportedKind;
  }

  lemma ReportedWorld<W>(kind: B.YieldKind, s: B.State<W>, value: Option<Val>, d: Data<W>)
    requires Reported(kind, s, value, d)
    ensures d.world == s.world
  {
  }

  // When the code reports the frame's yield, the loop goes on with what the service leaves.
  lemma DrivenGoesOn<W>(host: Host<W>, blocks: seq<Block>, entry: BlockId, n: nat, service: Service<W>, ip: nat,
      frame: map<nat, i64>, outs: map<string, i64>, w: W, fuel: seq<nat>, kind: B.YieldKind, y: B.State<W>)
    requires ip < 0x8000_0000 && fuel != [] && |y.regs| == n && y.pc < 0x7fff_ffff
    requires
      var o := Run(host, blocks, EntryConfig(entry, Params(ip), frame, outs, w), fuel[0]);
      o.Returned? && Reported(kind, y, o.value, o.data)
    ensures
      var d := Run(host, blocks, EntryConfig(entry, Params(ip), frame, outs, w), fuel[0]).data;
      var s := Serviced(service, kind, y);
      Driven(host, blocks, entry, n, service, ip, frame, outs, w, fuel)
      == Driven(host, blocks, entry, n, service, y.pc + 1, d.frame + FrameOf(s.regs), d.outs, s.world, fuel[1..])
  {
    hide Run, EntryConfig, Params, ReportedKind, Reported, FrameOf, SavedRegs, B.HelperName, Lower, B.Step, ShapeOf,
      ProgramOf, ExecInst, ExecCode, B.WellFormed, Acceptable, M.Step, M.Run;
    var o := Run(host, blocks, EntryConfig(entry, Params(ip), frame, outs, w), fuel[0]);
    ReportRead(kind, y, o.value, o.data, n);
    assert o.data.world == y.world by { ReportedWorld(kind, y, o.value, o.data); }
  }

  // After a yield of the interpreter the serviced frame is what the code is entered with again.
  lemma YieldReEnters<W(!new)>(host: Host<W>, f: B.Function, n: nat, entry: BlockId, service: Service<W>, s: B.State<W>,
      m: nat, frame: map<nat, i64>, outs: map<string, i64>)
    requires Acceptable(f) && ResumesEverywhere(f) && ServiceOk(service) && |s.regs| == n
    requires B.WellFormed(f) && B.Fits(f, |s.regs|) && B.Run(host, f, s, m).Yielded?
    ensures
      var o := B.Run(host, f, s, m);
      var s2 := Serviced(service, o.kind, o.at);
      && |o.at.regs| == n && o.at.pc < 0x7fff_ffff && |s2.regs| == n
      && var c := EntryConfig(entry, Params(o.at.pc + 1), frame + FrameOf(s2.regs), outs, s2.world);
      Entering(c, entry, n, o.at.pc + 1) && StartState(f, n, c, o.at.pc + 1) == s2
  {
    hide B.Step, B.Fits, B.WellFormed, EntryConfig, Params, FrameOf, Entering, StartState, Suspends, B.HelperName,
      Lower, ShapeOf, ProgramOf, ExecInst, ExecCode, M.Step, M.Run;
    YieldSite(host, f, s, m);
    var o := B.Run(host, f, s, m);
    var y := o.at;
    assert ServiceKeepsLength(service, o.kind, y.pc, y.regs, y.world);
    assert y.pc + 1 < |f.code|;
    ReEnter(f, n, entry, frame, outs, Serviced(service, o.kind, y), y.pc);
  }

  // Whatever a cut run ends with, the uncut run ends with, however many times it was cut.
  lemma {:induction false} CutRunReflected<W(!new)>(host: Host<W>, f: B.Function, n: nat, L: M.Layout, entry: BlockId,
      types: seq<ClifType>, service: Service<W>, ip: nat, frame: map<nat, i64>, outs: map<string, i64>, w: W,
      fuel: seq<nat>)
    returns (m: nat)
    requires Compiled(f, n, L, entry, types) && ResumesEverywhere(f) && ServiceOk(service)
    requires ip < 0x8000_0000 && Entering(EntryConfig(entry, Params(ip), frame, outs, w), entry, n, ip)
    requires B.WellFormed(f) && B.Fits(f, |StartState(f, n, EntryConfig(entry, Params(ip), frame, outs, w), ip).regs|)
    requires Driven(host, L.blocks, entry, n, service, ip, frame, outs, w, fuel).Some?
    ensures
      var s := StartState(f, n, EntryConfig(entry, Params(ip), frame, outs, w), ip);
      Driven(host, L.blocks, entry, n, service, ip, frame, outs, w, fuel) == Some(Uncut(host, f, service, s, m))
    decreases |fuel|
  {
    hide Step, B.Step, B.Run, Run, M.Step, Compiled, B.WellFormed, B.Fits, Reported, ServiceOk, ResumesEverywhere,
      ReportedKind, Acceptable, EntryConfig, StartState, Params, FrameOf, Serviced, Uncut, Lower, ShapeOf;
    var c := EntryConfig(entry, Params(ip), frame, outs, w);
    var s := StartState(f, n, c, ip);
    StartFacts(f, n, L, entry, types, c, ip);
    var k := EntryReflected(host, f, n, L, entry, types, c, ip, fuel[0]);
    var o := Run(host, L.blocks, c, fuel[0]);
    var end := B.Run(host, f, s, k);
    if end.Yielded? {
      var (kind, y) := (end.kind, end.at);
      CompiledAcceptable(f, n, L, entry, types);
      YieldReEnters(host, f, n, entry, service, s, k, o.data.frame, o.data.outs);
      DrivenGoesOn(host, L.blocks, entry, n, service, ip, frame, outs, w, fuel, kind, y);
      var s2 := Serviced(service, kind, y);
      var rest := CutRunReflected(host, f, n, L, entry, types, service, y.pc + 1, o.data.frame + FrameOf(s2.regs),
        o.data.outs, s2.world, fuel[1..]);
      var j := UncutSplits(host, f, service, s, k, rest);
      m := j + rest;
    } else {
      DrivenEnds(host, L.blocks, entry, n, service, ip, frame, outs, w, fuel, end);
      var _ := UncutSplits(host, f, service, s, k, 0);
      m := k;
    }
  }

  // The uncut run from s ends with o in fewer than m steps.
  ghost predicate UncutWithin<W(!new)>(host: Host<W>, f: B.Function, service: Service<W>, s: B.State<W>, m: nat,
      o: B.Outcome<W>)
    requires B.WellFormed(f) && B.Fits(f, |s.regs|) && ServiceOk(service)
  {
    exists k: nat :: k < m && Uncut(host, f, service, s, k) == o
  }

  // An uncut run that ends has an interpreter's run that ends at its first yield, or nowhere before.
  lemma {:induction false} FirstYield<W(!new)>(host: Host<W>, f: B.Function, service: Service<W>, s: B.State<W>, m: nat)
    requires B.WellFormed(f) && B.Fits(f, |s.regs|) && ServiceOk(service)
    requires !Uncut(host, f, service, s, m).Running?
    ensures !B.Run(host, f, s, m).Running?
    ensures match B.Run(host, f, s, m)
      case Yielded(kind, y) =>
        && |Serviced(service, kind, y).regs| == |s.regs| && m > 0
        && UncutWithin(host, f, service, Serviced(service, kind, y), m, Uncut(host, f, service, s, m))
      case o => o == Uncut(host, f, service, s, m)
    decreases m
  {
    hide B.Step;
    B.StepKeepsRegs(host, f, s);
    match B.Step(host, f, s) {
      case Running(s') => FirstYield(host, f, service, s', m - 1);
      case Yielded(kind, y) => assert ServiceKeepsLength(service, kind, y.pc, y.regs, y.world);
      case _ =>
    }
  }

  // Whatever the uncut run ends with, the run cut at every call and await ends with.
  lemma {:induction false} CutRunKept<W(!new)>(host: Host<W>, f: B.Function, n: nat, L: M.Layout, entry: BlockId,
      types: seq<ClifType>, service: Service<W>, ip: nat, frame: map<nat, i64>, outs: map<string, i64>, w: W, m: nat)
    returns (fuel: seq<nat>)
    requires Compiled(f, n, L, entry, types) && ResumesEverywhere(f) && ServiceOk(service)
    requires ip < 0x8000_0000 && Entering(EntryConfig(entry, Params(ip), frame, outs, w), entry, n, ip)
    requires B.WellFormed(f) && B.Fits(f, |StartState(f, n, EntryConfig(entry, Params(ip), frame, outs, w), ip).regs|)
    requires !Uncut(host, f, service, StartState(f, n, EntryConfig(entry, Params(ip), frame, outs, w), ip), m).Running?
    ensures
      var s := StartState(f, n, EntryConfig(entry, Params(ip), frame, outs, w), ip);
      Driven(host, L.blocks, entry, n, service, ip, frame, outs, w, fuel) == Some(Uncut(host, f, service, s, m))
    decreases m
  {
    hide Step, B.Step, B.Run, Run, M.Step, Compiled, B.WellFormed, B.Fits, Reported, ServiceOk, ResumesEverywhere,
      ReportedKind, Acceptable, EntryConfig, StartState, Params, FrameOf, Serviced, Uncut, B.HelperName, Lower, ShapeOf;
    var c := EntryConfig(entry, Params(ip), frame, outs, w);
    var s := StartState(f, n, c, ip);
    StartFacts(f, n, L, entry, types, c, ip);
    FirstYield(host, f, service, s, m);
    var k := EntryKept(host, f, n, L, entry, types, c, ip, m);
    var o := Run(host, L.blocks, c, k);
    var end := B.Run(host, f, s, m);
    if end.Yielded? {
      var (kind, y) := (end.kind, end.at);
      CompiledAcceptable(f, n, L, entry, types);
      YieldReEnters(host, f, n, entry, service, s, m, o.data.frame, o.data.outs);
      var s2 := Serviced(service, kind, y);
      var m2: nat :| m2 < m && Uncut(host, f, service, s2, m2) == Uncut(host, f, service, s, m);
      var rest := CutRunKept(host, f, n, L, entry, types, service, y.pc + 1, o.data.frame + FrameOf(s2.regs),
        o.data.outs, s2.world, m2);
      fuel := [k] + rest;
      assert fuel[1..] == rest;
      DrivenGoesOn(host, L.blocks, entry, n, service, ip, frame, outs, w, fuel, kind, y);
    } else {
      fuel := [k];
      DrivenEnds(host, L.blocks, entry, n, service, ip, frame, outs, w, fuel, end);
    }
  }
}
