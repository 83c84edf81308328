/** VM bytecode (crates/eronom-core/src/bytecode.rs) and what each instruction does to the
    registers of a frame.  A helper of the runtime is a call to the host. */
module Bytecode {
  import opened MachineWords
  import opened Options

  type Word = i64

  // Bit patterns of the boxed constants, as signed words (crates/eronom-core/src/value.rs:8-10).
  const TAG_NULL: Word := -0x000f_0000_0000_0000

  const TAG_FALSE: Word := -0x000e_0000_0000_0000

  const TAG_TRUE: Word := -0x000d_0000_0000_0000

  newtype u8 = x: int | 0 <= x < 0x100

  newtype u32 = x: int | 0 <= x < 0x1_0000_0000

  datatype OpCode =
    | LoadConst | LoadNull | LoadBool | Move | Negate | Not | Add | Sub | Mul | Div | Mod
    | BitAnd | BitOr | BitXor | BitNot | ShiftLeft | ShiftRight | TypeOf | ToIter | ArrayLen
    | Equal | Greater | Less | DefineGlobal | GetGlobal | SetGlobal
    | Jump | JumpIfFalse | Loop | Call | MakeArray | MakeObject | GetProperty | SetProperty
    | GetIndex | SetIndex | Await | Return | DefineStruct | Throw

  datatype Instruction = Instruction(op: OpCode, a: u8, b: u8, c: u8, operand: u32)
  {
    function ra(): nat { a as nat }
    function rb(): nat { b as nat }
    function rc(): nat { c as nat }
    function n(): nat { operand as nat }
  }

  datatype Function = Function(code: seq<Instruction>, constants: seq<Word>, arity: nat)

  // The operand read as a signed 32-bit distance.
  function Distance(operand: u32): int
  {
    if operand as int < 0x8000_0000 then operand as int else operand as int - 0x1_0000_0000
  }

  // Where a jump at pc leads; None when the instruction is no jump.
  function Target(pc: nat, inst: Instruction): Option<int>
  {
    match inst.op
    case Jump => Some(pc + 1 + Distance(inst.operand))
    case JumpIfFalse => Some(pc + 1 + Distance(inst.operand))
    case Loop => Some(pc + 1 - Distance(inst.operand))
    case _ => None
  }

  function HelperName(op: OpCode): string
  {
    match op
    case Negate => "er_jit_negate" case Not => "er_jit_not"
    case Add => "er_jit_add" case Sub => "er_jit_sub" case Mul => "er_jit_mul" case Div => "er_jit_div"
    case Mod => "er_jit_mod" case BitAnd => "er_jit_bit_and" case BitOr => "er_jit_bit_or"
    case BitXor => "er_jit_bit_xor" case BitNot => "er_jit_bit_not" case ShiftLeft => "er_jit_shift_left"
    case ShiftRight => "er_jit_shift_right" case TypeOf => "er_jit_typeof" case ToIter => "er_jit_to_iter"
    case ArrayLen => "er_jit_array_len_op" case Equal => "er_jit_equal" case Greater => "er_jit_greater"
    case Less => "er_jit_less" case DefineGlobal => "er_jit_define_global" case GetGlobal => "er_jit_get_global"
    case SetGlobal => "er_jit_set_global" case MakeArray => "er_jit_make_array" case MakeObject => "er_jit_make_object"
    case GetProperty => "er_jit_get_property" case SetProperty => "er_jit_set_property"
    case GetIndex => "er_jit_get_index" case SetIndex => "er_jit_set_index" case DefineStruct => "er_jit_define_struct"
    case _ => ""
  }

  predicate IsUnary(op: OpCode)
  {
    op.Negate? || op.Not? || op.BitNot? || op.TypeOf? || op.ToIter? || op.ArrayLen?
  }

  // ---------------------------------------------------------------- what a function may contain

  // The number of registers an array or object literal reads from register b on.
  function SpanLength(inst: Instruction): nat
  {
    if inst.op == MakeArray then inst.n() else if inst.op == MakeObject then 2 * inst.n() else 0
  }

  // Every register the instruction names is below n.
  predicate RegsBelow(inst: Instruction, n: nat)
  {
    inst.ra() < n && inst.rb() < n && inst.rc() < n && inst.rb() + SpanLength(inst) <= n
  }

  predicate ConstantsOk(f: Function, inst: Instruction)
  {
    && (inst.op in {LoadConst, DefineGlobal, GetGlobal, SetGlobal, GetProperty, SetProperty, DefineStruct} ==>
      inst.n() < |f.constants|)
    && (inst.op == DefineStruct ==> inst.ra() < |f.constants| && inst.rb() < |f.constants|)
  }

  predicate TargetOk(f: Function, pc: nat, inst: Instruction)
  {
    && (Target(pc, inst).Some? ==> 0 <= Target(pc, inst).value < |f.code|)
    && (inst.op == JumpIfFalse ==> pc + 1 < |f.code|)
  }

  ghost predicate WellFormed(f: Function)
  {
    forall pc :: 0 <= pc < |f.code| ==> ConstantsOk(f, f.code[pc]) && TargetOk(f, pc, f.code[pc])
  }

  // ---------------------------------------------------------------- the interpreter

  datatype State<!W> = State(pc: nat, regs: seq<Word>, world: W)

  datatype YieldKind = ForCall(dest: nat, func: nat, argCount: Word) | ForAwait(promise: nat)

  datatype Outcome<!W> =
    | Running(state: State<W>)
    | Yielded(kind: YieldKind, at: State<W>)
    | Returned(value: Word, world: W)
    | Threw(world: W)

  function Put<W>(s: State<W>, r: nat, v: Word): Outcome<W>
    requires r < |s.regs|
  {
    Running(s.(pc := s.pc + 1, regs := s.regs[r := v]))
  }

  function PutResult<W>(s: State<W>, r: nat, result: (Word, W)): Outcome<W>
    requires r < |s.regs|
  {
    Put(s.(world := result.1), r, result.0)
  }

  function Effect<W>(s: State<W>, w: W): Outcome<W>
  {
    Running(s.(pc := s.pc + 1, world := w))
  }

  predicate Falsey(v: Word)
  {
    v == TAG_FALSE || v == TAG_NULL
  }

  // The operands of an instruction that computes one value from one or two registers.
  function OperandsOf(i: Instruction, regs: seq<Word>): seq<Word>
    requires RegsBelow(i, |regs|)
  {
    if IsUnary(i.op) then [regs[i.rb()]] else [regs[i.rb()], regs[i.rc()]]
  }

  function Step<W>(host: Host<W>, f: Function, s: State<W>): Outcome<W>
    requires WellFormed(f)
    requires s.pc < |f.code| ==> RegsBelow(f.code[s.pc], |s.regs|)
  {
    if s.pc >= |f.code| then Returned(TAG_NULL, s.world) else
    var i := f.code[s.pc];
    var h := HelperName(i.op);
    var R := (r: nat) requires r < |s.regs| => s.regs[r];
    match i.op
    case LoadConst => Put(s, i.ra(), f.constants[i.n()])
    case LoadNull => Put(s, i.ra(), TAG_NULL)
    case LoadBool => Put(s, i.ra(), if i.b != 0 then TAG_TRUE else TAG_FALSE)
    case Move => Put(s, i.ra(), R(i.rb()))
    case DefineGlobal => Effect(s, host.callVoid(h, [f.constants[i.n()], R(i.ra())], s.world))
    case GetGlobal => PutResult(s, i.ra(), host.callWord(h, [f.constants[i.n()]], s.world))
    case SetGlobal => Effect(s, host.callVoid(h, [R(i.ra()), f.constants[i.n()]], s.world))
    case MakeArray => PutResult(s, i.ra(), host.callWord(h, s.regs[i.rb()..i.rb() + i.n()], s.world))
    case MakeObject => PutResult(s, i.ra(), host.callWord(h, s.regs[i.rb()..i.rb() + 2 * i.n()], s.world))
    case GetProperty => PutResult(s, i.ra(), host.callWord(h, [R(i.rb()), f.constants[i.n()]], s.world))
    case SetProperty => Effect(s, host.callVoid(h, [R(i.ra()), R(i.rc()), f.constants[i.n()]], s.world))
    case SetIndex => Effect(s, host.callVoid(h, [R(i.ra()), R(i.rb()), R(i.rc())], s.world))
    case DefineStruct =>
      Effect(s, host.callVoid(h, [f.constants[i.n()], f.constants[i.ra()], f.constants[i.rb()]], s.world))
    case Jump => Running(s.(pc := Target(s.pc, i).value))
    case Loop => Running(s.(pc := Target(s.pc, i).value))
    case JumpIfFalse => Running(s.(pc := if Falsey(R(i.ra())) then Target(s.pc, i).value else s.pc + 1))
    case Call => Yielded(ForCall(i.ra(), i.rb(), i.operand as Word), s)
    case Await => Yielded(ForAwait(i.ra()), s)
    case Return => Returned(R(i.ra()), s.world)
    case Throw => Threw(s.world)
    case _ => PutResult(s, i.ra(), host.callWord(h, OperandsOf(i, s.regs), s.world))
  }

  // The registers of every instruction exist.
  ghost predicate Fits(f: Function, n: nat)
  {
    forall pc :: 0 <= pc < |f.code| ==> RegsBelow(f.code[pc], n)
  }

  predicate IsControl(op: OpCode)
  {
    op.Jump? || op.Loop? || op.JumpIfFalse? || op.Call? || op.Await? || op.Return? || op.Throw?
  }

  lemma JumpKeepsRegs<W>(host: Host<W>, f: Function, s: State<W>)
    requires WellFormed(f) && s.pc < |f.code| && RegsBelow(f.code[s.pc], |s.regs|)
    requires f.code[s.pc].op in {Jump, Loop, JumpIfFalse}
    ensures var o := Step(host, f, s); o.Running? && o.state.regs == s.regs && o.state.pc <= |f.code|
  {
    hide HelperName, OperandsOf, Falsey, Distance;
    assert TargetOk(f, s.pc, f.code[s.pc]);
    hide WellFormed;
  }

  lemma ControlKeepsRegs<W>(host: Host<W>, f: Function, s: State<W>)
    requires WellFormed(f) && s.pc < |f.code| && RegsBelow(f.code[s.pc], |s.regs|) && IsControl(f.code[s.pc].op)
    ensures var o := Step(host, f, s); o.Running? ==> |o.state.regs| == |s.regs| && o.state.pc <= |f.code|
    ensures var o := Step(host, f, s); o.Yielded? ==> o.at == s && f.code[s.pc].op in {Call, Await}
  {
    hide HelperName, OperandsOf, Falsey, Target, WellFormed;
    if f.code[s.pc].op in {Jump, Loop, JumpIfFalse} {
      JumpKeepsRegs(host, f, s);
    }
  }

  lemma PlainKeepsRegs<W>(host: Host<W>, f: Function, s: State<W>)
    requires WellFormed(f) && s.pc < |f.code| && RegsBelow(f.code[s.pc], |s.regs|) && !IsControl(f.code[s.pc].op)
    ensures var o := Step(host, f, s); o.Running? && |o.state.regs| == |s.regs| && o.state.pc == s.pc + 1
  {
    hide HelperName, OperandsOf;
  }

  lemma AtEnd<W>(host: Host<W>, f: Function, s: State<W>)
    requires WellFormed(f) && s.pc >= |f.code|
    ensures Step(host, f, s).Returned?
  {
  }

  lemma StepKeepsRegs<W>(host: Host<W>, f: Function, s: State<W>)
    requires WellFormed(f) && Fits(f, |s.regs|)
    ensures var o := Step(host, f, s); o.Running? ==> |o.state.regs| == |s.regs| && o.state.pc <= |f.code|
    ensures var o := Step(host, f, s); o.Yielded? ==> o.at == s && s.pc < |f.code| && f.code[s.pc].op in {Call, Await}
  {
    hide Step;
    if s.pc >= |f.code| {
      AtEnd(host, f, s);
    } else if IsControl(f.code[s.pc].op) {
      ControlKeepsRegs(host, f, s);
    } else {
      PlainKeepsRegs(host, f, s);
    }
  }

  // Runs until the frame returns, throws or yields, for at most `steps` instructions.
  function Run<W>(host: Host<W>, f: Function, s: State<W>, steps: nat): Outcome<W>
    requires WellFormed(f) && Fits(f, |s.regs|)
    decreases steps
  {
    if steps == 0 then Running(s)
    else
      StepKeepsRegs(host, f, s);
      match Step(host, f, s)
      case Running(s') => Run(host, f, s', steps - 1)
      case other => other
  }
}
