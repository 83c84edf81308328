/** The code generator's view of Cranelift: a function under construction is a graph of
    basic blocks over mutable variables, each block ending in one terminator. */
module BlockGraph {
  import opened MachineWords
  import opened Options

  type Var = nat

  type BlockId = nat

  datatype ClifType = I64Type | F64Type

  datatype IntCmp =
    | Equal | NotEqual | SignedLessThan | SignedLessThanOrEqual | SignedGreaterThan | SignedGreaterThanOrEqual

  datatype Operand = V(v: Var) | K(k: i64)

  datatype Test = Zero(v: Var) | Equals(v: Var, k: i64) | OneOf(v: Var, k1: i64, k2: i64)

  datatype Inst =
    | IConst(dst: Var, word: i64)
    | FConst(dst: Var, float: F64)
    | CopyVar(dst: Var, src: Var)
    | IAdd(dst: Var, l: Var, r: Var)
    | ISub(dst: Var, l: Var, r: Var)
    | IMul(dst: Var, l: Var, r: Var)
    | SDiv(dst: Var, l: Var, r: Var)
    | SRem(dst: Var, l: Var, r: Var)
    | BitInst(dst: Var, bop: BinaryOp, l: Var, r: Var)   // band, bor, bxor, ishl, sshr
    | ICmp(dst: Var, cc: IntCmp, l: Var, r: Var)
    | INeg(dst: Var, src: Var)
    | BNot(dst: Var, src: Var)
    | IsZero(dst: Var, src: Var)
    | FloatInst(dst: Var, fop: BinaryOp, l: Var, r: Var) // fadd, fsub, fmul, fdiv
    | FCmp(dst: Var, fcc: BinaryOp, l: Var, r: Var)
    | FNeg(dst: Var, src: Var)
    | StringAddr(dst: Var, text: string)
    | FuncAddr(dst: Var, symbol: string)
    | LoadGlobal(dst: Var, name: string)
    | StoreGlobal(name: string, src: Var)
    | CallInst(ret: Option<Var>, callee: string, args: seq<Operand>, retFloat: bool)
    | CallPrint(src: Var)
    | BindParam(dst: Var, param: nat)        // a function parameter becomes the value of a variable
    | LoadSlot(dst: Var, slot: nat)
    | StoreSlot(slot: nat, src: Var)
    | CallSlots(to: Var, callee: string, slot: nat, count: nat)  // the host reads count frame slots
    | StoreOut(cell: string, out: Operand)

  datatype Terminator =
    | JumpTo(target: BlockId)
    | BrIf(test: Test, yes: BlockId, no: BlockId)
    | ReturnVar(v: Var)
    | ReturnConst(word: i64)
    | ReturnNothing

  // A block: entered becomes true when the builder switches to it.
  datatype Block = Block(insts: seq<Inst>, term: Option<Terminator>, entered: bool)

  // ---------------------------------------------------------------- construction

  predicate HasType(types: seq<ClifType>, v: Var, ty: ClifType)
  {
    v < |types| && types[v] == ty
  }

  predicate WellTyped(types: seq<ClifType>, inst: Inst)
  {
    match inst
    case IConst(d, _) => HasType(types, d, I64Type)
    case FConst(d, _) => HasType(types, d, F64Type)
    case CopyVar(d, s) => d < |types| && s < |types| && types[d] == types[s]
    case IAdd(d, l, r) => HasType(types, d, I64Type) && HasType(types, l, I64Type) && HasType(types, r, I64Type)
    case ISub(d, l, r) => HasType(types, d, I64Type) && HasType(types, l, I64Type) && HasType(types, r, I64Type)
    case IMul(d, l, r) => HasType(types, d, I64Type) && HasType(types, l, I64Type) && HasType(types, r, I64Type)
    case SDiv(d, l, r) => HasType(types, d, I64Type) && HasType(types, l, I64Type) && HasType(types, r, I64Type)
    case SRem(d, l, r) => HasType(types, d, I64Type) && HasType(types, l, I64Type) && HasType(types, r, I64Type)
    case BitInst(d, _, l, r) => HasType(types, d, I64Type) && HasType(types, l, I64Type) && HasType(types, r, I64Type)
    case ICmp(d, _, l, r) => HasType(types, d, I64Type) && HasType(types, l, I64Type) && HasType(types, r, I64Type)
    case INeg(d, s) => HasType(types, d, I64Type) && HasType(types, s, I64Type)
    case BNot(d, s) => HasType(types, d, I64Type) && HasType(types, s, I64Type)
    case IsZero(d, s) => HasType(types, d, I64Type) && HasType(types, s, I64Type)
    case FloatInst(d, _, l, r) => HasType(types, d, F64Type) && HasType(types, l, F64Type) && HasType(types, r, F64Type)
    case FCmp(d, _, l, r) => HasType(types, d, I64Type) && HasType(types, l, F64Type) && HasType(types, r, F64Type)
    case FNeg(d, s) => HasType(types, d, F64Type) && HasType(types, s, F64Type)
    case StringAddr(d, _) => HasType(types, d, I64Type)
    case FuncAddr(d, _) => HasType(types, d, I64Type)
    case LoadGlobal(d, _) => HasType(types, d, I64Type)
    case StoreGlobal(_, s) => HasType(types, s, I64Type)
    case CallInst(ret, _, args, float) =>
      && (ret.Some? ==> HasType(types, ret.value, if float then F64Type else I64Type))
      && forall a :: a in args && a.V? ==> HasType(types, a.v, I64Type)
    case CallPrint(s) => HasType(types, s, I64Type)
    case BindParam(d, _) => d < |types|
    case LoadSlot(d, _) => HasType(types, d, I64Type)
    case StoreSlot(_, s) => HasType(types, s, I64Type)
    case CallSlots(d, _, _, _) => HasType(types, d, I64Type)
    case StoreOut(_, o) => o.V? ==> HasType(types, o.v, I64Type)
  }

  function Targets(t: Terminator): set<BlockId>
  {
    match t
    case JumpTo(b) => {b}
    case BrIf(_, y, n) => {y, n}
    case _ => {}
  }

  class FunctionBuilder {
    var blocks: seq<Block>
    var current: Option<BlockId>
    var varTypes: seq<ClifType>

    constructor ()
      ensures blocks == [] && current == None && varTypes == []
    {
      blocks, current, varTypes := [], None, [];
    }

    // The block that takes instructions now.
    ghost predicate Open()
      reads this
    {
      current.Some? && current.value < |blocks| && blocks[current.value].term == None && blocks[current.value].entered
    }

    method DeclareVar(ty: ClifType) returns (v: Var)
      modifies this`varTypes
      ensures v == |old(varTypes)| && varTypes == old(varTypes) + [ty]
    {
      v := |varTypes|;
      varTypes := varTypes + [ty];
    }

    method CreateBlock() returns (b: BlockId)
      modifies this`blocks
      ensures b == |old(blocks)| && blocks == old(blocks) + [Block([], None, false)]
    {
      b := |blocks|;
      blocks := blocks + [Block([], None, false)];
    }

    // The block being left must be finished, and no block is entered twice.
    method SwitchToBlock(b: BlockId)
      requires b < |blocks| && !blocks[b].entered
      requires current.Some? ==> current.value < |blocks| && blocks[current.value].term.Some?
      modifies this`blocks, this`current
      ensures current == Some(b)
      ensures blocks == old(blocks)[b := old(blocks)[b].(entered := true)]
    {
      blocks := blocks[b := blocks[b].(entered := true)];
      current := Some(b);
    }

    // An instruction only goes into a block without a terminator, and only defines a variable
    // of the type it produces.
    method Emit(inst: Inst)
      requires Open() && WellTyped(varTypes, inst)
      modifies this`blocks
      ensures blocks == old(blocks)[current.value :=
        old(blocks)[current.value].(insts := old(blocks)[current.value].insts + [inst])]
      ensures Open()
    {
      var b := current.value;
      blocks := blocks[b := blocks[b].(insts := blocks[b].insts + [inst])];
    }

    method IsFilled() returns (filled: bool)
      requires current.Some? && current.value < |blocks|
      ensures filled == blocks[current.value].term.Some?
    {
      filled := blocks[current.value].term.Some?;
    }

    method Terminate(t: Terminator)
      requires Open() && forall b :: b in Targets(t) ==> b < |blocks|
      modifies this`blocks
      ensures blocks == old(blocks)[current.value := old(blocks)[current.value].(term := Some(t))]
    {
      var b := current.value;
      blocks := blocks[b := blocks[b].(term := Some(t))];
    }
  }

  // ---------------------------------------------------------------- execution

  // What running code reads and writes: frame holds the caller's register slots, outs the cells
  // the code reports through.
  datatype Data<!W> = Data(vars: map<Var, Val>, params: seq<Val>, frame: map<nat, i64>, outs: map<string, i64>,
    world: W)

  datatype Effect<!W> =
    | Done(data: Data<W>)
    | Trap
    | Fault  // a variable or slot holds nothing, or a value of the wrong type

  datatype Config<!W> = Config(block: BlockId, index: nat, data: Data<W>)

  datatype Outcome<!W> =
    | Running(config: Config<W>)
    | Returned(value: Option<Val>, data: Data<W>)
    | Trapped
    | Broken  // control reached a place that holds no code, or code met a fault

  function IntVal(vars: map<Var, Val>, v: Var): Option<i64>
  {
    if v in vars && vars[v].I? then Some(vars[v].i) else None
  }

  function FloatVal(vars: map<Var, Val>, v: Var): Option<F64>
  {
    if v in vars && vars[v].F? then Some(vars[v].f) else None
  }

  function OperandVal(vars: map<Var, Val>, o: Operand): Option<i64>
  {
    match o
    case V(v) => IntVal(vars, v)
    case K(k) => Some(k)
  }

  function OperandVals(vars: map<Var, Val>, os: seq<Operand>): (vs: Option<seq<i64>>)
  {
    if os == [] then Some([])
    else match (OperandVal(vars, os[0]), OperandVals(vars, os[1..]))
      case (Some(x), Some(xs)) => Some([x] + xs)
      case _ => None
  }

  function SlotVals(frame: map<nat, i64>, start: nat, count: nat): (vs: Option<seq<i64>>)
    decreases count
  {
    if count == 0 then Some([])
    else match (if start in frame then Some(frame[start]) else None, SlotVals(frame, start + 1, count - 1))
      case (Some(x), Some(xs)) => Some([x] + xs)
      case _ => None
  }

  function Compare(cc: IntCmp, l: i64, r: i64): bool
  {
    match cc
    case Equal => l == r
    case NotEqual => l != r
    case SignedLessThan => l < r
    case SignedLessThanOrEqual => l <= r
    case SignedGreaterThan => l > r
    case SignedGreaterThanOrEqual => l >= r
  }

  function Def<W>(d: Data<W>, dst: Var, v: Val): Effect<W>
  {
    Done(d.(vars := d.vars[dst := v]))
  }

  function DefInt<W>(d: Data<W>, dst: Var, l: Var, r: Var, op: (i64, i64) -> i64): Effect<W>
  {
    match (IntVal(d.vars, l), IntVal(d.vars, r))
    case (Some(x), Some(y)) => Def(d, dst, I(op(x, y)))
    case _ => Fault
  }

  function DefInt1<W>(d: Data<W>, dst: Var, src: Var, op: i64 -> i64): Effect<W>
  {
    match IntVal(d.vars, src)
    case Some(x) => Def(d, dst, I(op(x)))
    case None => Fault
  }

  function ExecInst<W>(host: Host<W>, inst: Inst, d: Data<W>): Effect<W>
  {
    match inst
    case IConst(t, v) => Def(d, t, I(v))
    case FConst(t, v) => Def(d, t, F(v))
    case CopyVar(t, s) => if s in d.vars then Def(d, t, d.vars[s]) else Fault
    case IAdd(t, l, r) => DefInt(d, t, l, r, (x: i64, y: i64) => Wrap(x as int + y as int))
    case ISub(t, l, r) => DefInt(d, t, l, r, (x: i64, y: i64) => Wrap(x as int - y as int))
    case IMul(t, l, r) => DefInt(d, t, l, r, (x: i64, y: i64) => Wrap(x as int * y as int))
    case SDiv(t, l, r) =>
      (match (IntVal(d.vars, l), IntVal(d.vars, r))
       case (Some(x), Some(y)) =>
         if y == 0 || (x as int == MIN_I64 && y == -1) then Trap else Def(d, t, I(Wrap(Quotient(x as int, y as int))))
       case _ => Fault)
    case SRem(t, l, r) =>
      (match (IntVal(d.vars, l), IntVal(d.vars, r))
       case (Some(x), Some(y)) =>
         if y == 0 then Trap else Def(d, t, I(Wrap(x as int - y as int * Quotient(x as int, y as int))))
       case _ => Fault)
    case BitInst(t, op, l, r) => DefInt(d, t, l, r, (x, y) => host.bits(op, x, y))
    case ICmp(t, cc, l, r) => DefInt(d, t, l, r, (x, y) => Flag(Compare(cc, x, y)))
    case INeg(t, s) => DefInt1(d, t, s, (x: i64) => Wrap(-(x as int)))
    case BNot(t, s) => DefInt1(d, t, s, x => host.bnot(x))
    case IsZero(t, s) => DefInt1(d, t, s, (x: i64) => Flag(x == 0))
    case FloatInst(t, op, l, r) =>
      (match (FloatVal(d.vars, l), FloatVal(d.vars, r))
       case (Some(x), Some(y)) => Def(d, t, F(host.fop(op, x, y)))
       case _ => Fault)
    case FCmp(t, op, l, r) =>
      (match (FloatVal(d.vars, l), FloatVal(d.vars, r))
       case (Some(x), Some(y)) => Def(d, t, I(Flag(host.fcmp(op, x, y))))
       case _ => Fault)
    case FNeg(t, s) =>
      (match FloatVal(d.vars, s)
       case Some(x) => Def(d, t, F(host.funary(Neg, x)))
       case None => Fault)
    case StringAddr(t, text) => Def(d, t, I(host.stringValue(text)))
    case FuncAddr(t, sym) => Def(d, t, I(host.functionAddress(sym)))
    case LoadGlobal(t, name) => Def(d, t, I(host.loadGlobal(name, d.world)))
    case StoreGlobal(name, s) =>
      (match IntVal(d.vars, s)
       case Some(x) => Done(d.(world := host.storeGlobal(name, x, d.world)))
       case None => Fault)
    case CallInst(ret, callee, args, float) =>
      (match OperandVals(d.vars, args)
       case None => Fault
       case Some(xs) =>
         if ret.None? then Done(d.(world := host.callVoid(callee, xs, d.world)))
         else if float then
           var (v, w) := host.callFloat(callee, xs, d.world);
           Def(d.(world := w), ret.value, F(v))
         else
           var (v, w) := host.callWord(callee, xs, d.world);
           Def(d.(world := w), ret.value, I(v)))
    case CallPrint(s) =>
      (match IntVal(d.vars, s)
       case Some(x) => Done(d.(world := host.printWord(x, d.world)))
       case None => Fault)
    case BindParam(t, i) => if i < |d.params| then Def(d, t, d.params[i]) else Fault
    case LoadSlot(t, slot) => if slot in d.frame then Def(d, t, I(d.frame[slot])) else Fault
    case StoreSlot(slot, s) =>
      (match IntVal(d.vars, s)
       case Some(x) => Done(d.(frame := d.frame[slot := x]))
       case None => Fault)
    case CallSlots(t, callee, start, count) =>
      (match SlotVals(d.frame, start, count)
       case None => Fault
       case Some(xs) =>
         var (v, w) := host.callWord(callee, xs, d.world);
         Def(d.(world := w), t, I(v)))
    case StoreOut(cell, o) =>
      (match OperandVal(d.vars, o)
       case Some(x) => Done(d.(outs := d.outs[cell := x]))
       case None => Fault)
  }

  // A stretch of instructions.
  function ExecCode<W>(host: Host<W>, code: seq<Inst>, d: Data<W>): Effect<W>
  {
    if code == [] then Done(d)
    else match ExecInst(host, code[0], d)
      case Done(d') => ExecCode(host, code[1..], d')
      case other => other
  }

  predicate Holds(test: Test, x: i64)
  {
    match test
    case Zero(_) => x == 0
    case Equals(_, k) => x == k
    case OneOf(_, k1, k2) => x == k1 || x == k2
  }

  function ExecTerm<W>(t: Terminator, d: Data<W>): Outcome<W>
  {
    match t
    case JumpTo(b) => Running(Config(b, 0, d))
    case BrIf(test, y, n) =>
      (match IntVal(d.vars, test.v)
       case Some(x) => Running(Config(if Holds(test, x) then y else n, 0, d))
       case None => Broken)
    case ReturnVar(v) => if v in d.vars then Returned(Some(d.vars[v]), d) else Broken
    case ReturnConst(k) => Returned(Some(I(k)), d)
    case ReturnNothing => Returned(None, d)
  }

  function Step<W>(host: Host<W>, blocks: seq<Block>, c: Config<W>): Outcome<W>
  {
    if c.block >= |blocks| then Broken
    else
      var b := blocks[c.block];
      if c.index < |b.insts| then
        match ExecInst(host, b.insts[c.index], c.data)
        case Done(d) => Running(Config(c.block, c.index + 1, d))
        case Trap => Trapped
        case Fault => Broken
      else if c.index == |b.insts| && b.term.Some? then ExecTerm(b.term.value, c.data)
      else Broken
  }

  function Run<W>(host: Host<W>, blocks: seq<Block>, c: Config<W>, steps: nat): Outcome<W>
    decreases steps
  {
    if steps == 0 then Running(c)
    else match Step(host, blocks, c)
      case Running(c') => Run(host, blocks, c', steps - 1)
      case other => other
  }

  lemma {:induction false} RunAdds<W>(host: Host<W>, blocks: seq<Block>, c: Config<W>, m: nat, n: nat)
    requires Run(host, blocks, c, m).Running?
    ensures Run(host, blocks, c, m + n) == Run(host, blocks, Run(host, blocks, c, m).config, n)
    decreases m
  {
    hide Step;
    if m > 0 {
      RunAdds(host, blocks, Step(host, blocks, c).config, m - 1, n);
    }
  }

  // Once a run has ended it stays ended, with the same outcome.
  lemma {:induction false} RunEnds<W>(host: Host<W>, blocks: seq<Block>, c: Config<W>, m: nat, n: nat)
    requires m <= n && !Run(host, blocks, c, m).Running?
    ensures Run(host, blocks, c, n) == Run(host, blocks, c, m)
    decreases m
  {
    hide Step;
    if m > 0 && Step(host, blocks, c).Running? {
      RunEnds(host, blocks, Step(host, blocks, c).config, m - 1, n - 1);
    }
  }

  lemma OneStep<W>(host: Host<W>, blocks: seq<Block>, c: Config<W>)
    ensures Run(host, blocks, c, 1) == Step(host, blocks, c)
  {
    hide Step;
    if Step(host, blocks, c).Running? {
      assert Run(host, blocks, Step(host, blocks, c).config, 0) == Running(Step(host, blocks, c).config);
    }
  }

  // The outcome of a stretch of code that lies at a position of a block.
  function AfterCode<W>(block: BlockId, index: nat, e: Effect<W>): Outcome<W>
  {
    match e
    case Done(d) => Running(Config(block, index, d))
    case Trap => Trapped
    case Fault => Broken
  }

  // Code that lies in a block runs there, one step an instruction.
  lemma {:induction false} CodeRuns<W>(host: Host<W>, blocks: seq<Block>, c: Config<W>, code: seq<Inst>)
    requires c.block < |blocks| && c.index + |code| <= |blocks[c.block].insts|
    requires blocks[c.block].insts[c.index..c.index + |code|] == code
    ensures Run(host, blocks, c, |code|) == AfterCode(c.block, c.index + |code|, ExecCode(host, code, c.data))
    decreases |code|
  {
    hide ExecInst, ExecTerm;
    if code != [] {
      var insts := blocks[c.block].insts;
      assert insts[c.index] == code[0] by { assert insts[c.index..c.index + |code|][0] == insts[c.index]; }
      match ExecInst(host, code[0], c.data) {
        case Done(d) =>
          assert insts[c.index + 1..c.index + 1 + |code[1..]|] == code[1..];
          CodeRuns(host, blocks, Config(c.block, c.index + 1, d), code[1..]);
        case _ =>
      }
    }
  }

  lemma {:induction false} ExecAppend<W>(host: Host<W>, a: seq<Inst>, b: seq<Inst>, d: Data<W>)
    requires ExecCode(host, a, d).Done?
    ensures ExecCode(host, a + b, d) == ExecCode(host, b, ExecCode(host, a, d).data)
  {
    hide ExecInst;
    if a == [] {
      assert a + b == b;
    } else {
      assert (a + b)[0] == a[0] && (a + b)[1..] == a[1..] + b;
      ExecAppend(host, a[1..], b, ExecInst(host, a[0], d).data);
    }
  }
}
