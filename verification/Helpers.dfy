/** The helpers of the runtime by name (crates/eronom-cranelift/src/jit.rs:782-832): compiled code calls
    them by the names that the compiler chooses, and linking finds what each of them does. */
module Helpers {
  import opened Options
  import opened MachineWords
  import opened Bytecode

  // What the runtime does for each instruction that it has a helper for.
  datatype Operations<!W> = Operations(
    value: (OpCode, seq<Word>, W) -> (Word, W),
    effect: (OpCode, seq<Word>, W) -> W)

  // The table of symbols: the function registered under a name does what its instruction asks for.
  function Symbols(): seq<(string, OpCode)>
  {
    [
      ("er_jit_negate", Negate), ("er_jit_not", OpCode.Not), ("er_jit_add", OpCode.Add), ("er_jit_sub", OpCode.Sub),
      ("er_jit_mul", OpCode.Mul), ("er_jit_div", OpCode.Div), ("er_jit_mod", OpCode.Mod),
      ("er_jit_bit_and", OpCode.BitAnd), ("er_jit_bit_or", OpCode.BitOr), ("er_jit_bit_xor", OpCode.BitXor),
      ("er_jit_bit_not", OpCode.BitNot), ("er_jit_shift_left", ShiftLeft), ("er_jit_shift_right", ShiftRight),
      ("er_jit_typeof", TypeOf), ("er_jit_to_iter", ToIter), ("er_jit_array_len_op", ArrayLen),
      ("er_jit_equal", OpCode.Equal), ("er_jit_greater", Greater), ("er_jit_less", Less),
      ("er_jit_define_global", OpCode.DefineGlobal), ("er_jit_get_global", OpCode.GetGlobal),
      ("er_jit_set_global", SetGlobal), ("er_jit_make_array", MakeArray), ("er_jit_make_object", MakeObject),
      ("er_jit_get_property", GetProperty), ("er_jit_set_property", SetProperty), ("er_jit_get_index", GetIndex),
    ("er_jit_set_index", SetIndex), ("er_jit_define_struct", DefineStruct)]
  }

  // The last function registered under a name, in the table from k on.
  function Found(name: string, k: nat): Option<OpCode>
    requires k <= |Symbols()|
    decreases |Symbols()| - k
  {
    if k == |Symbols()| then None
    else if Symbols()[k].0 == name && Found(name, k + 1).None? then Some(Symbols()[k].1)
    else Found(name, k + 1)
  }

  // The host that compiled code is linked with.
  function Linked<W>(base: Host<W>, ops: Operations<W>): Host<W>
  {
    base.(
      callWord := (name: string, args: seq<i64>, w: W) =>
        match Found(name, 0) case Some(op) => ops.value(op, args, w) case None => base.callWord(name, args, w),
      callVoid := (name: string, args: seq<i64>, w: W) =>
        match Found(name, 0) case Some(op) => ops.effect(op, args, w) case None => base.callVoid(name, args, w))
  }

  predicate HasHelper(op: OpCode)
  {
    op !in {LoadConst, LoadNull, LoadBool, OpCode.Move, OpCode.Jump, JumpIfFalse, Loop, OpCode.Call, Await,
            OpCode.Return, Throw}
  }

  lemma FoundNot(name: string, k: nat)
    requires k <= |Symbols()| && forall j :: k <= j < |Symbols()| ==> Symbols()[j].0 != name
    ensures Found(name, k) == None
    decreases |Symbols()| - k
  {
    if k < |Symbols()| {
      FoundNot(name, k + 1);
    }
  }

  lemma FoundAt(name: string, k: nat, i: nat)
    requires k <= i < |Symbols()| && Symbols()[i].0 == name
    requires forall j :: i < j < |Symbols()| ==> Symbols()[j].0 != name
    ensures Found(name, k) == Some(Symbols()[i].1)
    decreases i - k
  {
    if k == i {
      FoundNot(name, i + 1);
    } else {
      FoundAt(name, k + 1, i);
    }
  }

  // Where the operation of an instruction stands in the table.
  function Row(op: OpCode): nat
  {
    match op
    case Negate => 0
    case Not => 1
    case Add => 2
    case Sub => 3
    case Mul => 4
    case Div => 5
    case Mod => 6
    case BitAnd => 7
    case BitOr => 8
    case BitXor => 9
    case BitNot => 10
    case ShiftLeft => 11
    case ShiftRight => 12
    case TypeOf => 13
    case ToIter => 14
    case ArrayLen => 15
    case Equal => 16
    case Greater => 17
    case Less => 18
    case DefineGlobal => 19
    case GetGlobal => 20
    case SetGlobal => 21
    case MakeArray => 22
    case MakeObject => 23
    case GetProperty => 24
    case SetProperty => 25
    case GetIndex => 26
    case SetIndex => 27
    case DefineStruct => 28
    case _ => 0
  }

  lemma RowOf(op: OpCode)
    requires HasHelper(op)
    ensures Row(op) < |Symbols()| && Symbols()[Row(op)].1 == op
  {
  }

  lemma NamesDiffer(i: nat, j: nat)
    requires i < j < |Symbols()|
    ensures Symbols()[i].0 != Symbols()[j].0
  {
  }

  lemma FirstNames(op: OpCode)
    requires HasHelper(op) && Row(op) < 15
    ensures Row(op) < |Symbols()| && Symbols()[Row(op)].0 == HelperName(op)
  {
  }

  lemma LastNames(op: OpCode)
    requires HasHelper(op) && 15 <= Row(op)
    ensures Row(op) < |Symbols()| && Symbols()[Row(op)].0 == HelperName(op)
  {
  }

  lemma NameOf(op: OpCode)
    requires HasHelper(op)
    ensures Row(op) < |Symbols()| && Symbols()[Row(op)].0 == HelperName(op)
  {
    hide Symbols, HelperName, Row;
    if Row(op) < 15 { FirstNames(op); } else { LastNames(op); }
  }

  /** The compiler names the right helper: linking finds the instruction's own operation. */
  lemma HelperExact(op: OpCode)
    requires HasHelper(op)
    ensures Found(HelperName(op), 0) == Some(op)
  {
    hide Found, Symbols, HelperName, Row;
    RowOf(op);
    NameOf(op);
    var i := Row(op);
    forall j | i < j < |Symbols()| ensures Symbols()[j].0 != HelperName(op) {
      NamesDiffer(i, j);
    }
    FoundAt(HelperName(op), 0, i);
  }

  predicate HasEffect(op: OpCode)
  {
    op in {OpCode.DefineGlobal, SetGlobal, SetProperty, SetIndex, DefineStruct}
  }

  // What an instruction hands to its operation.
  function Arguments(f: Function, i: Instruction, regs: seq<Word>): seq<Word>
    requires ConstantsOk(f, i) && RegsBelow(i, |regs|)
  {
    var a, b, c := regs[i.ra()], regs[i.rb()], regs[i.rc()];
    match i.op
    case DefineGlobal => [f.constants[i.n()], a]
    case SetGlobal => [a, f.constants[i.n()]]
    case GetGlobal => [f.constants[i.n()]]
    case GetProperty => [b, f.constants[i.n()]]
    case SetProperty => [a, c, f.constants[i.n()]]
    case SetIndex => [a, b, c]
    case DefineStruct => [f.constants[i.n()], f.constants[i.ra()], f.constants[i.rb()]]
    case MakeArray => regs[i.rb()..i.rb() + i.n()]
    case MakeObject => regs[i.rb()..i.rb() + 2 * i.n()]
    case Negate => [b]
    case Not => [b]
    case BitNot => [b]
    case TypeOf => [b]
    case ToIter => [b]
    case ArrayLen => [b]
    case _ => [b, c]
  }

  lemma LinkedPerforms<W>(base: Host<W>, ops: Operations<W>, op: OpCode, args: seq<Word>, w: W)
    requires HasHelper(op)
    ensures Linked(base, ops).callVoid(HelperName(op), args, w) == ops.effect(op, args, w)
    ensures Linked(base, ops).callWord(HelperName(op), args, w) == ops.value(op, args, w)
  {
    HelperExact(op);
    hide HelperName, Found;
  }

  lemma StepCalls<W>(h: Host<W>, f: Function, s: State<W>)
    requires WellFormed(f) && s.pc < |f.code| && RegsBelow(f.code[s.pc], |s.regs|) && HasHelper(f.code[s.pc].op)
    ensures
      var i := f.code[s.pc];
      var name, args := HelperName(i.op), Arguments(f, i, s.regs);
      Step(h, f, s) ==
        if HasEffect(i.op) then Running(s.(pc := s.pc + 1, world := h.callVoid(name, args, s.world)))
        else
          var (v, w) := h.callWord(name, args, s.world);
          Running(State(s.pc + 1, s.regs[i.ra() := v], w))
  {
    hide HelperName, WellFormed;
  }

  /** Linked with the runtime, an instruction performs its own operation on its own operands, and its
      first register gets the value, if there is one. */
  lemma StepPerforms<W>(base: Host<W>, ops: Operations<W>, f: Function, s: State<W>)
    requires WellFormed(f) && s.pc < |f.code| && RegsBelow(f.code[s.pc], |s.regs|) && HasHelper(f.code[s.pc].op)
    ensures
      var i := f.code[s.pc];
      var args := Arguments(f, i, s.regs);
      Step(Linked(base, ops), f, s) ==
        if HasEffect(i.op) then Running(s.(pc := s.pc + 1, world := ops.effect(i.op, args, s.world)))
        else
          var (v, w) := ops.value(i.op, args, s.world);
          Running(State(s.pc + 1, s.regs[i.ra() := v], w))
  {
    assert ConstantsOk(f, f.code[s.pc]);
    hide HelperName, WellFormed, Linked, ConstantsOk;
    var i, h := f.code[s.pc], Linked(base, ops);
    var args := Arguments(f, i, s.regs);
    LinkedPerforms(base, ops, i.op, args, s.world);
    StepCalls(h, f, s);
  }
}
