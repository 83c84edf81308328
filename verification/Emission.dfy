/** How both code generators lay a pc-indexed program out as a block graph, and why the graph
    runs as the program: one block for each branch target, a jump wherever control falls into
    such a block, and no code for a pc that follows a terminator and is no branch target
    (crates/eronom-cranelift/src/lib.rs:363-406, crates/eronom-cranelift/src/jit.rs:140-209). */
module Emission {
  import opened MachineWords
  import opened Options
  import opened BlockGraph

  // What one pc contributes to the graph.
  datatype Shape =
    | Straight(code: seq<Inst>)                    // falls through to the next pc
    | Goto(target: nat)
    | BranchNext(test: Test, target: nat)          // otherwise goes on in a new block
    | BranchLabels(test: Test, target: nat)        // otherwise jumps to the next pc, which has a label
    | Stop(code: seq<Inst>, term: Terminator)      // leaves the function
    | Yield(code: seq<Inst>, term: Terminator)     // leaves it from a block of its own

  // tail is what a function does that runs off its end.
  datatype Program = Program(shapes: seq<Shape>, tail: Shape)
  {
    function At(pc: nat): Shape
    {
      if pc < |shapes| then shapes[pc] else tail
    }
  }

  // ---------------------------------------------------------------- running a program by its pcs

  datatype Result<!W> =
    | Next(pc: nat, data: Data<W>)
    | Ended(value: Option<Val>, data: Data<W>)
    | TrapEnd
    | BrokenEnd

  function Leave<W>(term: Terminator, e: Effect<W>): Result<W>
  {
    match e
    case Trap => TrapEnd
    case Fault => BrokenEnd
    case Done(d) =>
      match ExecTerm(term, d)
      case Returned(v, d') => Ended(v, d')
      case _ => BrokenEnd
  }

  function Step<W>(host: Host<W>, p: Program, pc: nat, d: Data<W>): Result<W>
  {
    match p.At(pc)
    case Straight(code) =>
      (match ExecCode(host, code, d)
       case Done(d') => Next(pc + 1, d')
       case Trap => TrapEnd
       case Fault => BrokenEnd)
    case Goto(t) => Next(t, d)
    case BranchNext(test, t) =>
      (match IntVal(d.vars, test.v)
       case Some(x) => Next(if Holds(test, x) then t else pc + 1, d)
       case None => BrokenEnd)
    case BranchLabels(test, t) =>
      (match IntVal(d.vars, test.v)
       case Some(x) => Next(if Holds(test, x) then t else pc + 1, d)
       case None => BrokenEnd)
    case Stop(code, term) => Leave(term, ExecCode(host, code, d))
    case Yield(code, term) => Leave(term, ExecCode(host, code, d))
  }

  function Run<W>(host: Host<W>, p: Program, pc: nat, d: Data<W>, steps: nat): Result<W>
    decreases steps
  {
    if steps == 0 then Next(pc, d)
    else match Step(host, p, pc, d)
      case Next(pc', d') => Run(host, p, pc', d', steps - 1)
      case other => other
  }

  lemma {:induction false} RunEnds<W>(host: Host<W>, p: Program, pc: nat, d: Data<W>, m: nat, n: nat)
    requires m <= n && !Run(host, p, pc, d, m).Next?
    ensures Run(host, p, pc, d, n) == Run(host, p, pc, d, m)
    decreases m
  {
    hide Step;
    if m > 0 && Step(host, p, pc, d).Next? {
      RunEnds(host, p, Step(host, p, pc, d).pc, Step(host, p, pc, d).data, m - 1, n - 1);
    }
  }

  // ---------------------------------------------------------------- programs that can be laid out

  predicate IsReturn(t: Terminator)
  {
    t.ReturnVar? || t.ReturnConst? || t.ReturnNothing?
  }

  ghost predicate CodeTyped(types: seq<ClifType>, code: seq<Inst>)
  {
    forall i :: 0 <= i < |code| ==> WellTyped(types, code[i])
  }

  ghost predicate ShapeOk(types: seq<ClifType>, shape: Shape, pc: nat, len: nat)
  {
    match shape
    case Straight(code) => CodeTyped(types, code)
    case Goto(t) => t < len
    case BranchNext(_, t) => t < len
    case BranchLabels(_, t) => t < len && pc + 1 < len
    case Stop(code, term) => CodeTyped(types, code) && IsReturn(term)
    case Yield(code, term) => CodeTyped(types, code) && IsReturn(term)
  }

  ghost predicate ProgramOk(types: seq<ClifType>, p: Program)
  {
    && p.tail.Stop? && ShapeOk(types, p.tail, |p.shapes|, |p.shapes|)
    && forall pc :: 0 <= pc < |p.shapes| ==> ShapeOk(types, p.shapes[pc], pc, |p.shapes|)
  }

  ghost predicate LabelsFor(shape: Shape, pc: nat, labels: map<nat, BlockId>)
  {
    match shape
    case Goto(t) => t in labels
    case BranchNext(_, t) => t in labels
    case BranchLabels(_, t) => t in labels && pc + 1 in labels
    case _ => true
  }

  ghost predicate LabelsCover(p: Program, labels: map<nat, BlockId>)
  {
    forall pc :: 0 <= pc < |p.shapes| ==> LabelsFor(p.shapes[pc], pc, labels)
  }

  // ---------------------------------------------------------------- where the code of each pc lies

  datatype Pos = Pos(block: BlockId, index: nat)

  // What has been laid out so far: start gives the position where the code of a pc begins,
  // labels the block of a branch target, done the number of pcs dealt with, open the position
  // from which control goes on to pc done.
  datatype Layout = Layout(blocks: seq<Block>, labels: map<nat, BlockId>, start: map<nat, Pos>, done: nat,
                           open: Option<Pos>, sealed: bool)

  ghost predicate EndsWith(blocks: seq<Block>, p: Pos, t: Terminator)
  {
    p.block < |blocks| && p.index == |blocks[p.block].insts| && blocks[p.block].term == Some(t)
  }

  ghost predicate CodeAt(blocks: seq<Block>, p: Pos, code: seq<Inst>)
  {
    && p.block < |blocks| && p.index + |code| <= |blocks[p.block].insts|
    && blocks[p.block].insts[p.index..p.index + |code|] == code
  }

  ghost predicate StopAt(blocks: seq<Block>, p: Pos, code: seq<Inst>, t: Terminator)
  {
    CodeAt(blocks, p, code) && EndsWith(blocks, Pos(p.block, p.index + |code|), t)
  }

  // Control at position q goes on to pc.
  ghost predicate FlowsTo(p: Program, L: Layout, q: Pos, pc: nat)
  {
    if pc == L.done then
      if L.sealed then p.tail.Stop? && StopAt(L.blocks, q, p.tail.code, p.tail.term) else L.open == Some(q)
    else
      pc < L.done && if pc in L.labels then EndsWith(L.blocks, q, JumpTo(L.labels[pc]))
        else pc in L.start && L.start[pc] == q
  }

  // The code of a shape lies at q; next is where control goes on to the next pc, if it does.
  ghost predicate ShapeAt(blocks: seq<Block>, labels: map<nat, BlockId>, shape: Shape, pc: nat, q: Pos,
      next: Option<Pos>)
  {
    match shape
    case Straight(code) => CodeAt(blocks, q, code) && next == Some(Pos(q.block, q.index + |code|))
    case Goto(t) => t in labels && EndsWith(blocks, q, JumpTo(labels[t]))
    case BranchNext(test, t) =>
      t in labels && next.Some? && next.value.index == 0 && EndsWith(blocks, q, BrIf(test, labels[t], next.value.block))
    case BranchLabels(test, t) =>
      t in labels && pc + 1 in labels && EndsWith(blocks, q, BrIf(test, labels[t], labels[pc + 1]))
    case Stop(code, term) => StopAt(blocks, q, code, term)
    case Yield(code, term) =>
      exists b: BlockId :: EndsWith(blocks, q, JumpTo(b)) && StopAt(blocks, Pos(b, 0), code, term)
  }

  predicate FallsThrough(shape: Shape)
  {
    shape.Straight? || shape.BranchNext?
  }

  ghost predicate Placed(p: Program, L: Layout, pc: nat)
    requires pc in L.start
  {
    if FallsThrough(p.At(pc)) then
      exists next: Pos :: ShapeAt(L.blocks, L.labels, p.At(pc), pc, L.start[pc], Some(next))
        && FlowsTo(p, L, next, pc + 1)
    else
      ShapeAt(L.blocks, L.labels, p.At(pc), pc, L.start[pc], None)
  }

  ghost predicate AllPlaced(p: Program, L: Layout)
  {
    && L.done <= |p.shapes|
    && (forall pc :: pc in L.start ==> pc < L.done)
    && (forall pc {:trigger L.start[pc]} :: pc in L.start ==> Placed(p, L, pc))
    && (forall pc {:trigger L.labels[pc]} :: pc in L.labels && pc < L.done ==>
      pc in L.start && L.start[pc] == Pos(L.labels[pc], 0))
  }

  // ---------------------------------------------------------------- the layout only grows

  ghost predicate BlockGrown(a: Block, b: Block)
  {
    && |a.insts| <= |b.insts| && b.insts[..|a.insts|] == a.insts
    && (a.term.Some? ==> b.term == a.term && b.insts == a.insts)
  }

  // Instructions are only appended, and a terminator is final.
  ghost predicate Grown(a: seq<Block>, b: seq<Block>)
  {
    |a| <= |b| && forall i :: 0 <= i < |a| ==> BlockGrown(a[i], b[i])
  }

  lemma GrownSelf(a: seq<Block>)
    ensures Grown(a, a)
  {
  }

  lemma GrownTransitive(a: seq<Block>, b: seq<Block>, c: seq<Block>)
    requires Grown(a, b) && Grown(b, c)
    ensures Grown(a, c)
  {
    forall i | 0 <= i < |a| ensures BlockGrown(a[i], c[i]) {
      assert BlockGrown(a[i], b[i]) && BlockGrown(b[i], c[i]);
      assert c[i].insts[..|a[i].insts|] == c[i].insts[..|b[i].insts|][..|a[i].insts|];
    }
  }

  lemma CodeKept(a: seq<Block>, b: seq<Block>, q: Pos, code: seq<Inst>)
    requires Grown(a, b) && CodeAt(a, q, code)
    ensures CodeAt(b, q, code)
  {
    var x, y := a[q.block], b[q.block];
    assert BlockGrown(x, y);
    assert y.insts[q.index..q.index + |code|] == y.insts[..|x.insts|][q.index..q.index + |code|];
  }

  lemma EndKept(a: seq<Block>, b: seq<Block>, q: Pos, t: Terminator)
    requires Grown(a, b) && EndsWith(a, q, t)
    ensures EndsWith(b, q, t)
  {
    assert BlockGrown(a[q.block], b[q.block]);
  }

  lemma StopKept(a: seq<Block>, b: seq<Block>, q: Pos, code: seq<Inst>, t: Terminator)
    requires Grown(a, b) && StopAt(a, q, code, t)
    ensures StopAt(b, q, code, t)
  {
    CodeKept(a, b, q, code);
    EndKept(a, b, Pos(q.block, q.index + |code|), t);
  }

  lemma ShapeKept(a: seq<Block>, b: seq<Block>, labels: map<nat, BlockId>, shape: Shape, pc: nat, q: Pos,
      next: Option<Pos>)
    requires Grown(a, b) && ShapeAt(a, labels, shape, pc, q, next)
    ensures ShapeAt(b, labels, shape, pc, q, next)
  {
    hide Grown, CodeAt, EndsWith, StopAt;
    match shape {
      case Straight(code) => CodeKept(a, b, q, code);
      case Goto(t) => EndKept(a, b, q, JumpTo(labels[t]));
      case BranchNext(test, t) => EndKept(a, b, q, BrIf(test, labels[t], next.value.block));
      case BranchLabels(test, t) => EndKept(a, b, q, BrIf(test, labels[t], labels[pc + 1]));
      case Stop(code, term) => StopKept(a, b, q, code, term);
      case Yield(code, term) =>
        var c: BlockId :| EndsWith(a, q, JumpTo(c)) && StopAt(a, Pos(c, 0), code, term);
        EndKept(a, b, q, JumpTo(c));
        StopKept(a, b, Pos(c, 0), code, term);
    }
  }

  // One more pc dealt with, or the end sealed: whatever was about to flow into it now does.
  ghost predicate Extends(p: Program, L: Layout, M: Layout)
  {
    && Grown(L.blocks, M.blocks) && L.labels == M.labels && !L.sealed
    && (M.done == L.done + 1 || (M.done == L.done && M.sealed))
    && (forall pc {:trigger L.start[pc]} :: pc in L.start ==> pc in M.start && M.start[pc] == L.start[pc])
    && (L.open.Some? ==> FlowsTo(p, M, L.open.value, L.done))
  }

  lemma FlowKept(p: Program, L: Layout, M: Layout, q: Pos, pc: nat)
    requires Extends(p, L, M) && FlowsTo(p, L, q, pc)
    ensures FlowsTo(p, M, q, pc)
  {
    if pc < L.done && pc in L.labels {
      EndKept(L.blocks, M.blocks, q, JumpTo(L.labels[pc]));
    }
  }

  lemma PlacedKept(p: Program, L: Layout, M: Layout, pc: nat)
    requires Extends(p, L, M) && pc in L.start && Placed(p, L, pc)
    ensures pc in M.start && M.start[pc] == L.start[pc] && Placed(p, M, pc)
  {
    hide Grown, FlowsTo, ShapeAt;
    assert M.start[pc] == L.start[pc];
    if FallsThrough(p.At(pc)) {
      var next: Pos :| ShapeAt(L.blocks, L.labels, p.At(pc), pc, L.start[pc], Some(next))
        && FlowsTo(p, L, next, pc + 1);
      ShapeKept(L.blocks, M.blocks, L.labels, p.At(pc), pc, L.start[pc], Some(next));
      FlowKept(p, L, M, next, pc + 1);
    } else {
      ShapeKept(L.blocks, M.blocks, L.labels, p.At(pc), pc, L.start[pc], None);
    }
  }

  lemma ExtendsDone(p: Program, L: Layout, M: Layout)
    requires Extends(p, L, M)
    ensures L.done <= M.done <= L.done + 1 && L.labels == M.labels
  {
  }

  lemma AllKept(p: Program, L: Layout, M: Layout)
    requires Extends(p, L, M) && AllPlaced(p, L) && M.done <= |p.shapes|
    requires forall pc :: pc in M.start && pc !in L.start ==> pc < M.done && Placed(p, M, pc)
    requires L.done in L.labels && M.done > L.done ==> L.done in M.start && M.start[L.done] == Pos(L.labels[L.done], 0)
    ensures AllPlaced(p, M)
  {
    hide Placed, Extends;
    forall pc | pc in M.start ensures pc < M.done && Placed(p, M, pc) {
      if pc in L.start {
        assert pc < L.done && Placed(p, L, pc) by { assert L.start[pc] == L.start[pc]; }
        PlacedKept(p, L, M, pc);
        ExtendsDone(p, L, M);
      }
    }
    forall pc | pc in M.labels && pc < M.done ensures pc in M.start && M.start[pc] == Pos(M.labels[pc], 0) {
      ExtendsDone(p, L, M);
      if pc < L.done {
        assert L.labels[pc] == M.labels[pc];
        assert Placed(p, L, pc);
        PlacedKept(p, L, M, pc);
      }
    }
  }

  // ---------------------------------------------------------------- emitting

  ghost predicate Awaited(labels: map<nat, BlockId>, done: nat, b: BlockId)
  {
    exists t :: t in labels && t >= done && labels[t] == b
  }

  // Every block but the current one is finished, or untouched and kept for a label still to come.
  ghost predicate BlocksOk(blocks: seq<Block>, labels: map<nat, BlockId>, done: nat, current: Option<BlockId>)
  {
    && current.Some? && current.value < |blocks| && blocks[current.value].entered
    && (forall t :: t in labels ==> labels[t] < |blocks|)
    && (forall t, u :: t in labels && u in labels && t != u ==> labels[t] != labels[u])
    && (forall t :: t in labels && t >= done ==> blocks[labels[t]] == Block([], None, false))
    && (forall b :: 0 <= b < |blocks| && !blocks[b].entered ==> Awaited(labels, done, b))
    && (forall b :: 0 <= b < |blocks| && blocks[b].entered && b != current.value ==> blocks[b].term.Some?)
  }

  ghost predicate Terminated(blocks: seq<Block>, current: Option<BlockId>)
  {
    current.Some? && current.value < |blocks| && blocks[current.value].term.Some?
  }

  // The position where the next instruction goes.
  ghost function Here(blocks: seq<Block>, current: Option<BlockId>): Option<Pos>
  {
    if current.Some? && current.value < |blocks| && blocks[current.value].term == None
    then Some(Pos(current.value, |blocks[current.value].insts|)) else None
  }

  lemma BlocksOkFacts(blocks: seq<Block>, labels: map<nat, BlockId>, done: nat, current: Option<BlockId>)
    requires BlocksOk(blocks, labels, done, current)
    ensures current.Some? && current.value < |blocks| && blocks[current.value].entered
    ensures forall t :: t in labels ==> labels[t] < |blocks|
  {
  }

  // Passing a pc that has no label leaves the blocks in order.
  lemma NoLabel(blocks: seq<Block>, labels: map<nat, BlockId>, done: nat, current: Option<BlockId>)
    requires BlocksOk(blocks, labels, done, current) && done !in labels
    ensures BlocksOk(blocks, labels, done + 1, current)
  {
    forall b | 0 <= b < |blocks| && !blocks[b].entered ensures Awaited(labels, done + 1, b) {
      assert Awaited(labels, done, b);
    }
  }

  // The blocks after the jump to the label's block, if there is one, and the switch to it.
  lemma LabelEntered(a: seq<Block>, labels: map<nat, BlockId>, k: nat, current: Option<BlockId>, b: seq<Block>)
    requires k in labels && BlocksOk(a, labels, k, current)
    requires
      var c := current.value;
      var mid := if a[c].term.Some? then a else a[c := a[c].(term := Some(JumpTo(labels[k])))];
      b == mid[labels[k] := mid[labels[k]].(entered := true)]
    ensures BlocksOk(b, labels, k + 1, Some(labels[k])) && Grown(a, b)
    ensures b[labels[k]] == Block([], None, true)
    ensures a[current.value].term == None ==>
      EndsWith(b, Pos(current.value, |a[current.value].insts|), JumpTo(labels[k]))
  {
    forall i | 0 <= i < |b| && !b[i].entered ensures Awaited(labels, k + 1, i) {
      assert Awaited(labels, k, i);
    }
  }

  // Falls into the block of label k when control can get here, then enters it.
  method EnterLabel(builder: FunctionBuilder, labels: map<nat, BlockId>, k: nat, terminated: bool)
    requires k in labels && BlocksOk(builder.blocks, labels, k, builder.current)
    requires terminated == Terminated(builder.blocks, builder.current)
    modifies builder`blocks, builder`current
    ensures BlocksOk(builder.blocks, labels, k + 1, builder.current)
    ensures Grown(old(builder.blocks), builder.blocks)
    ensures builder.Open() && Here(builder.blocks, builder.current) == Some(Pos(labels[k], 0))
    ensures Here(old(builder.blocks), old(builder.current)).Some? ==>
      EndsWith(builder.blocks, Here(old(builder.blocks), old(builder.current)).value, JumpTo(labels[k]))
  {
    ghost var was, from := builder.blocks, builder.current;
    assert builder.blocks[labels[k]] == Block([], None, false);
    if !terminated {
      builder.Terminate(JumpTo(labels[k]));
    }
    builder.SwitchToBlock(labels[k]);
    LabelEntered(was, labels, k, from, builder.blocks);
  }

  // One more instruction behind those that are there.
  lemma CodeExtended(a: seq<Block>, b: seq<Block>, q: Pos, code: seq<Inst>, i: nat)
    requires i < |code| && CodeAt(a, q, code[..i]) && q.index + i == |a[q.block].insts|
    requires q.block < |b| && b[q.block].insts == a[q.block].insts + [code[i]]
    ensures CodeAt(b, q, code[..i + 1])
  {
    assert code[..i + 1] == code[..i] + [code[i]];
    var insts := b[q.block].insts;
    assert insts[q.index..q.index + i] == a[q.block].insts[q.index..q.index + i];
    assert insts[q.index..q.index + (i + 1)] == insts[q.index..q.index + i] + [insts[q.index + i]];
  }

  // Appends code to the current block.
  method Append(builder: FunctionBuilder, labels: map<nat, BlockId>, done: nat, code: seq<Inst>)
    requires BlocksOk(builder.blocks, labels, done, builder.current) && builder.Open()
    requires CodeTyped(builder.varTypes, code)
    modifies builder`blocks
    ensures BlocksOk(builder.blocks, labels, done, builder.current) && builder.Open()
    ensures Grown(old(builder.blocks), builder.blocks)
    ensures
      var q := Here(old(builder.blocks), builder.current).value;
      && CodeAt(builder.blocks, q, code)
      && Here(builder.blocks, builder.current) == Some(Pos(q.block, q.index + |code|))
  {
    hide WellTyped;
    GrownSelf(builder.blocks);
    ghost var q := Here(builder.blocks, builder.current).value;
    for i := 0 to |code|
      invariant BlocksOk(builder.blocks, labels, done, builder.current) && builder.Open()
      invariant Grown(old(builder.blocks), builder.blocks)
      invariant CodeAt(builder.blocks, q, code[..i])
      invariant Here(builder.blocks, builder.current) == Some(Pos(q.block, q.index + i))
    {
      ghost var was := builder.blocks;
      builder.Emit(code[i]);
      CodeExtended(was, builder.blocks, q, code, i);
    }
    assert code[..|code|] == code;
  }

  // Ends the current block.
  method Finish(builder: FunctionBuilder, labels: map<nat, BlockId>, done: nat, t: Terminator)
    requires BlocksOk(builder.blocks, labels, done, builder.current) && builder.Open()
    requires forall b :: b in Targets(t) ==> b < |builder.blocks|
    modifies builder`blocks
    ensures BlocksOk(builder.blocks, labels, done, builder.current)
    ensures Grown(old(builder.blocks), builder.blocks)
    ensures Terminated(builder.blocks, builder.current)
    ensures EndsWith(builder.blocks, Here(old(builder.blocks), builder.current).value, t)
  {
    builder.Terminate(t);
  }

  // Ends the current block with a terminator that may name the block created next, and goes on there.
  method FinishInto(builder: FunctionBuilder, labels: map<nat, BlockId>, done: nat, t: Terminator, next: BlockId)
    requires BlocksOk(builder.blocks, labels, done, builder.current) && builder.Open() && next == |builder.blocks|
    requires forall b :: b in Targets(t) ==> b <= next
    modifies builder`blocks, builder`current
    ensures BlocksOk(builder.blocks, labels, done, builder.current)
    ensures Grown(old(builder.blocks), builder.blocks)
    ensures builder.Open() && Here(builder.blocks, builder.current) == Some(Pos(next, 0))
    ensures EndsWith(builder.blocks, Here(old(builder.blocks), old(builder.current)).value, t)
  {
    ghost var before := builder.blocks;
    var b := builder.CreateBlock();
    builder.Terminate(t);
    builder.SwitchToBlock(b);
    forall i | 0 <= i < |builder.blocks| && !builder.blocks[i].entered ensures Awaited(labels, done, i) {
      assert builder.blocks[i] == before[i];
    }
  }

  // Goes on in a new block after the current one was ended; no control reaches it.
  method OpenUnreachable(builder: FunctionBuilder, labels: map<nat, BlockId>, done: nat)
    requires BlocksOk(builder.blocks, labels, done, builder.current) && Terminated(builder.blocks, builder.current)
    modifies builder`blocks, builder`current
    ensures BlocksOk(builder.blocks, labels, done, builder.current)
    ensures Grown(old(builder.blocks), builder.blocks)
    ensures builder.Open()
  {
    ghost var before := builder.blocks;
    var b := builder.CreateBlock();
    builder.SwitchToBlock(b);
    forall i | 0 <= i < |builder.blocks| && !builder.blocks[i].entered ensures Awaited(labels, done, i) {
      assert builder.blocks[i] == before[i];
    }
  }

  method EmitStop(builder: FunctionBuilder, labels: map<nat, BlockId>, done: nat, code: seq<Inst>, term: Terminator)
    requires BlocksOk(builder.blocks, labels, done, builder.current) && builder.Open()
    requires CodeTyped(builder.varTypes, code) && IsReturn(term)
    modifies builder`blocks
    ensures BlocksOk(builder.blocks, labels, done, builder.current)
    ensures Terminated(builder.blocks, builder.current) && Grown(old(builder.blocks), builder.blocks)
    ensures StopAt(builder.blocks, Here(old(builder.blocks), builder.current).value, code, term)
  {
    hide BlocksOk, Grown, CodeAt, CodeTyped;
    ghost var before, q := builder.blocks, Here(builder.blocks, builder.current).value;
    Append(builder, labels, done, code);
    ghost var middle := builder.blocks;
    Finish(builder, labels, done, term);
    CodeKept(middle, builder.blocks, q, code);
    GrownTransitive(before, middle, builder.blocks);
  }

  method EmitYield(builder: FunctionBuilder, labels: map<nat, BlockId>, done: nat, code: seq<Inst>, term: Terminator)
    requires BlocksOk(builder.blocks, labels, done, builder.current) && builder.Open()
    requires CodeTyped(builder.varTypes, code) && IsReturn(term)
    modifies builder`blocks, builder`current
    ensures BlocksOk(builder.blocks, labels, done, builder.current)
    ensures builder.Open() && Grown(old(builder.blocks), builder.blocks)
    ensures exists b: BlockId ::
      && EndsWith(builder.blocks, Here(old(builder.blocks), old(builder.current)).value, JumpTo(b))
      && StopAt(builder.blocks, Pos(b, 0), code, term)
  {
    hide BlocksOk, Grown, CodeTyped, EndsWith, StopAt;
    ghost var b0, q := builder.blocks, Here(builder.blocks, builder.current).value;
    var b := |builder.blocks|;
    FinishInto(builder, labels, done, JumpTo(b), b);
    ghost var b1 := builder.blocks;
    EmitStop(builder, labels, done, code, term);
    ghost var b2 := builder.blocks;
    OpenUnreachable(builder, labels, done);
    GrownTransitive(b0, b1, b2);
    GrownTransitive(b0, b2, builder.blocks);
    GrownTransitive(b1, b2, builder.blocks);
    EndKept(b1, builder.blocks, q, JumpTo(b));
    StopKept(b2, builder.blocks, Pos(b, 0), code, term);
  }

  // Emits the contribution of pc k at the current position.
  method EmitShape(builder: FunctionBuilder, labels: map<nat, BlockId>, k: nat, len: nat, shape: Shape)
    returns (terminated: bool)
    requires ShapeOk(builder.varTypes, shape, k, len) && LabelsFor(shape, k, labels)
    requires BlocksOk(builder.blocks, labels, k + 1, builder.current) && builder.Open()
    modifies builder`blocks, builder`current
    ensures BlocksOk(builder.blocks, labels, k + 1, builder.current)
    ensures terminated == Terminated(builder.blocks, builder.current)
    ensures Grown(old(builder.blocks), builder.blocks)
    ensures ShapeAt(builder.blocks, labels, shape, k, Here(old(builder.blocks), old(builder.current)).value,
      Here(builder.blocks, builder.current))
  {
    hide BlocksOk, Grown, CodeAt, CodeTyped;
    BlocksOkFacts(builder.blocks, labels, k + 1, builder.current);
    match shape
    case Straight(code) =>
      Append(builder, labels, k + 1, code);
      terminated := false;
    case Goto(t) =>
      Finish(builder, labels, k + 1, JumpTo(labels[t]));
      terminated := true;
    case BranchNext(test, t) =>
      FinishInto(builder, labels, k + 1, BrIf(test, labels[t], |builder.blocks|), |builder.blocks|);
      terminated := false;
    case BranchLabels(test, t) =>
      Finish(builder, labels, k + 1, BrIf(test, labels[t], labels[k + 1]));
      terminated := true;
    case Stop(code, term) =>
      EmitStop(builder, labels, k + 1, code, term);
      terminated := true;
    case Yield(code, term) =>
      EmitYield(builder, labels, k + 1, code, term);
      terminated := false;
  }

  // ---------------------------------------------------------------- the emission loop

  // The state of the loop before pc L.done; entry is where control was when the loop began.
  ghost predicate Emitting(p: Program, L: Layout, entry: Option<Pos>, current: Option<BlockId>)
  {
    && !L.sealed && L.open == Here(L.blocks, current)
    && BlocksOk(L.blocks, L.labels, L.done, current)
    && AllPlaced(p, L)
    && (entry.Some? ==> FlowsTo(p, L, entry.value, 0))
  }

  lemma EmittingFacts(p: Program, L: Layout, entry: Option<Pos>, current: Option<BlockId>)
    requires Emitting(p, L, entry, current)
    ensures !L.sealed && L.open == Here(L.blocks, current) && BlocksOk(L.blocks, L.labels, L.done, current)
    ensures L.done !in L.labels ==> BlocksOk(L.blocks, L.labels, L.done + 1, current)
    ensures current.Some? && current.value < |L.blocks| && L.blocks[current.value].entered
  {
    hide AllPlaced, FlowsTo;
    if L.done !in L.labels {
      NoLabel(L.blocks, L.labels, L.done, current);
    }
  }

  // A pc that control cannot reach gets no code.
  lemma SkipKeeps(p: Program, L: Layout, entry: Option<Pos>, current: Option<BlockId>)
    requires Emitting(p, L, entry, current) && L.done < |p.shapes| && L.done !in L.labels && L.open == None
    ensures Emitting(p, L.(done := L.done + 1), entry, current)
  {
    hide Placed, BlocksOk;
    var M := L.(done := L.done + 1);
    GrownSelf(L.blocks);
    AllKept(p, L, M);
    NoLabel(L.blocks, L.labels, L.done, current);
    if entry.Some? {
      FlowKept(p, L, M, entry.value, 0);
    }
  }

  lemma NewPlaced(p: Program, M: Layout, pc: nat)
    requires pc < |p.shapes| && M.done == pc + 1 && !M.sealed && pc in M.start
    requires ShapeAt(M.blocks, M.labels, p.shapes[pc], pc, M.start[pc], M.open)
    ensures Placed(p, M, pc)
  {
    hide CodeAt, EndsWith, StopAt;
    if FallsThrough(p.At(pc)) {
      assert FlowsTo(p, M, M.open.value, pc + 1);
    }
  }

  // Entering a label, if there is one, and emitting one shape keeps the layout.
  lemma EmitKeeps(p: Program, L: Layout, entry: Option<Pos>, current: Option<BlockId>,
                  middle: seq<Block>, q: Pos, blocks: seq<Block>, next: Option<BlockId>)
    requires Emitting(p, L, entry, current) && L.done < |p.shapes|
    requires Grown(L.blocks, middle) && Grown(middle, blocks)
    requires L.done !in L.labels ==> L.open == Some(q) && middle == L.blocks
    requires L.done in L.labels ==> q == Pos(L.labels[L.done], 0)
    requires L.done in L.labels && L.open.Some? ==> EndsWith(middle, L.open.value, JumpTo(L.labels[L.done]))
    requires BlocksOk(blocks, L.labels, L.done + 1, next)
    requires ShapeAt(blocks, L.labels, p.shapes[L.done], L.done, q, Here(blocks, next))
    ensures Emitting(p, Layout(blocks, L.labels, L.start[L.done := q], L.done + 1, Here(blocks, next), false), entry,
      next)
    ensures Grown(L.blocks, blocks)
  {
    hide Placed, ShapeAt, BlocksOk, Grown;
    var M := Layout(blocks, L.labels, L.start[L.done := q], L.done + 1, Here(blocks, next), false);
    GrownTransitive(L.blocks, middle, blocks);
    if L.done in L.labels && L.open.Some? {
      EndKept(middle, blocks, L.open.value, JumpTo(L.labels[L.done]));
    }
    assert L.done !in L.start;
    NewPlaced(p, M, L.done);
    AllKept(p, L, M);
    if entry.Some? {
      FlowKept(p, L, M, entry.value, 0);
    }
  }

  lemma SealKeeps(p: Program, L: Layout, entry: Option<Pos>, current: Option<BlockId>, blocks: seq<Block>)
    requires Emitting(p, L, entry, current) && L.done == |p.shapes| && Grown(L.blocks, blocks) && p.tail.Stop?
    requires L.open.Some? ==> StopAt(blocks, L.open.value, p.tail.code, p.tail.term)
    ensures
      var M := L.(blocks := blocks, open := None, sealed := true);
      AllPlaced(p, M) && (entry.Some? ==> FlowsTo(p, M, entry.value, 0))
  {
    hide Placed, BlocksOk, Grown, StopAt;
    var M := L.(blocks := blocks, open := None, sealed := true);
    AllKept(p, L, M);
    if entry.Some? {
      FlowKept(p, L, M, entry.value, 0);
    }
  }

  // The finished graph: every pc control can reach has its code; every block was entered once
  // and ends in one terminator, except the block of a label past the last pc.
  ghost predicate Laid(p: Program, L: Layout)
  {
    && L.sealed && L.done == |p.shapes| && p.tail.Stop? && IsReturn(p.tail.term)
    && AllPlaced(p, L) && LabelsCover(p, L.labels)
    && forall b :: 0 <= b < |L.blocks| ==>
      (L.blocks[b].entered && L.blocks[b].term.Some?) || Awaited(L.labels, |p.shapes|, b)
  }

  lemma AllFinished(blocks: seq<Block>, labels: map<nat, BlockId>, done: nat, current: Option<BlockId>)
    requires BlocksOk(blocks, labels, done, current) && Terminated(blocks, current)
    ensures forall b :: 0 <= b < |blocks| ==> (blocks[b].entered && blocks[b].term.Some?) || Awaited(labels, done, b)
  {
  }

  lemma Begin(p: Program, L: Layout, current: Option<BlockId>)
    requires BlocksOk(L.blocks, L.labels, 0, current)
    requires L.start == map[] && L.done == 0 && L.open == Here(L.blocks, current) && !L.sealed
    ensures Emitting(p, L, L.open, current)
  {
    hide BlocksOk;
  }

  method EmitBody(builder: FunctionBuilder, labels: map<nat, BlockId>, p: Program) returns (ghost L: Layout)
    requires ProgramOk(builder.varTypes, p) && LabelsCover(p, labels)
    requires BlocksOk(builder.blocks, labels, 0, builder.current)
    modifies builder`blocks, builder`current
    ensures L.blocks == builder.blocks && L.labels == labels && Laid(p, L)
    ensures Grown(old(builder.blocks), builder.blocks)
    ensures
      var entry := Here(old(builder.blocks), old(builder.current));
      entry.Some? ==> FlowsTo(p, L, entry.value, 0)
  {
    hide Placed, AllPlaced, BlocksOk, Grown, FlowsTo, Emitting, CodeTyped, ShapeAt, StopAt, EndsWith, Awaited;
    ghost var entry, first := Here(builder.blocks, builder.current), builder.blocks;
    L := Layout(builder.blocks, labels, map[], 0, entry, false);
    BlocksOkFacts(builder.blocks, labels, 0, builder.current);
    Begin(p, L, builder.current);
    var terminated := builder.IsFilled();
    GrownSelf(first);
    for k := 0 to |p.shapes|
      invariant L.blocks == builder.blocks && L.labels == labels && L.done == k
      invariant terminated == Terminated(builder.blocks, builder.current)
      invariant Emitting(p, L, entry, builder.current)
      invariant Grown(first, builder.blocks)
    {
      EmittingFacts(p, L, entry, builder.current);
      GrownSelf(builder.blocks);
      ghost var current := builder.current;
      if k in labels {
        EnterLabel(builder, labels, k, terminated);
        terminated := false;
      }
      if terminated {
        SkipKeeps(p, L, entry, current);
        L := L.(done := k + 1);
        continue;
      }
      ghost var middle, q := builder.blocks, Here(builder.blocks, builder.current).value;
      BlocksOkFacts(middle, labels, k + 1, builder.current);
      terminated := EmitShape(builder, labels, k, |p.shapes|, p.shapes[k]);
      EmitKeeps(p, L, entry, current, middle, q, builder.blocks, builder.current);
      GrownTransitive(first, L.blocks, builder.blocks);
      L := Layout(builder.blocks, labels, L.start[k := q], k + 1, Here(builder.blocks, builder.current), false);
    }

    EmittingFacts(p, L, entry, builder.current);
    GrownSelf(builder.blocks);
    ghost var current := builder.current;
    if !terminated {
      EmitStop(builder, labels, |p.shapes|, p.tail.code, p.tail.term);
    }
    SealKeeps(p, L, entry, current, builder.blocks);
    GrownTransitive(first, L.blocks, builder.blocks);
    AllFinished(builder.blocks, labels, |p.shapes|, builder.current);
    L := L.(blocks := builder.blocks, open := None, sealed := true);
  }

  // ---------------------------------------------------------------- the graph runs as the program

  ghost predicate AtPc(p: Program, L: Layout, q: Pos, pc: nat)
  {
    if pc < |p.shapes| then pc in L.start && L.start[pc] == q
    else pc == |p.shapes| && p.tail.Stop? && StopAt(L.blocks, q, p.tail.code, p.tail.term)
  }

  // The graph stands where the code of pc begins, with the program's data.
  ghost predicate StandsAt<W>(p: Program, L: Layout, c: Config<W>, pc: nat, d: Data<W>)
  {
    AtPc(p, L, Pos(c.block, c.index), pc) && c.data == d
  }

  ghost predicate SameEnd<W>(r: Result<W>, t: Outcome<W>)
  {
    match r
    case Next(_, _) => false
    case Ended(v, d) => t == Returned(v, d)
    case TrapEnd => t == Trapped
    case BrokenEnd => t == Broken
  }

  lemma LaidFacts(p: Program, L: Layout)
    requires Laid(p, L)
    ensures L.sealed && L.done == |p.shapes| && p.tail.Stop? && IsReturn(p.tail.term)
  {
  }

  lemma CodeOf(p: Program, L: Layout, pc: nat)
    requires Laid(p, L) && pc in L.start
    ensures pc < |p.shapes| && Placed(p, L, pc)
  {
    hide Placed;
    assert L.start[pc] == L.start[pc];
  }

  lemma LabelOf(p: Program, L: Layout, t: nat)
    requires Laid(p, L) && t in L.labels && t < |p.shapes|
    ensures t in L.start && L.start[t] == Pos(L.labels[t], 0)
  {
    hide Placed;
    assert L.labels[t] == L.labels[t];
  }

  // From a position that flows into pc, at most one jump leads to the code of pc.
  lemma Settle<W>(host: Host<W>, p: Program, L: Layout, c: Config<W>, pc: nat) returns (n: nat)
    requires Laid(p, L) && FlowsTo(p, L, Pos(c.block, c.index), pc)
    ensures n <= 1
    ensures var o := BlockGraph.Run(host, L.blocks, c, n); o.Running? && StandsAt(p, L, o.config, pc, c.data)
  {
    hide ExecInst, Laid;
    LaidFacts(p, L);
    n := 0;
    if pc < |p.shapes| && pc in L.labels {
      n := 1;
      LabelOf(p, L, pc);
      OneStep(host, L.blocks, c);
    }
  }

  // The graph answers one program step with n steps of its own; only a pc that falls through
  // may cost none.
  ghost predicate Answers<W>(host: Host<W>, p: Program, L: Layout, pc: nat, r: Result<W>, c: Config<W>, n: nat)
  {
    var o := BlockGraph.Run(host, L.blocks, c, n);
    match r
    case Next(pc', d') =>
      o.Running? && StandsAt(p, L, o.config, pc', d') && pc' <= |p.shapes| && (n > 0 || pc' == pc + 1)
    case _ => SameEnd(r, o)
  }

  // Code followed by a return, wherever it lies.
  lemma StopAnswers<W>(host: Host<W>, blocks: seq<Block>, c: Config<W>, code: seq<Inst>, term: Terminator)
    requires StopAt(blocks, Pos(c.block, c.index), code, term) && IsReturn(term)
    ensures SameEnd(Leave(term, ExecCode(host, code, c.data)), BlockGraph.Run(host, blocks, c, |code| + 1))
  {
    hide ExecInst, ExecCode;
    CodeRuns(host, blocks, c, code);
    match ExecCode(host, code, c.data) {
      case Done(d) =>
        RunAdds(host, blocks, c, |code|, 1);
        OneStep(host, blocks, Config(c.block, c.index + |code|, d));
      case _ =>
        BlockGraph.RunEnds(host, blocks, c, |code|, |code| + 1);
    }
  }

  lemma AnswerStraight<W>(host: Host<W>, p: Program, L: Layout, c: Config<W>, pc: nat) returns (n: nat)
    requires Laid(p, L) && pc < |p.shapes| && StandsAt(p, L, c, pc, c.data) && p.shapes[pc].Straight?
    ensures Answers(host, p, L, pc, Step(host, p, pc, c.data), c, n)
  {
    hide Laid, ExecInst, ExecCode, FlowsTo, BlockGraph.Step;
    CodeOf(p, L, pc);
    var code := p.shapes[pc].code;
    CodeRuns(host, L.blocks, c, code);
    n := |code|;
    match ExecCode(host, code, c.data) {
      case Done(d) =>
        var m := Settle(host, p, L, Config(c.block, c.index + |code|, d), pc + 1);
        RunAdds(host, L.blocks, c, |code|, m);
        n := |code| + m;
      case _ =>
    }
  }

  lemma AnswerBranch<W>(host: Host<W>, p: Program, L: Layout, c: Config<W>, pc: nat) returns (n: nat)
    requires Laid(p, L) && pc < |p.shapes| && StandsAt(p, L, c, pc, c.data)
    requires match p.shapes[pc]
      case Goto(t) => t < |p.shapes|
      case BranchNext(_, t) => t < |p.shapes|
      case BranchLabels(_, t) => t < |p.shapes| && pc + 1 < |p.shapes|
      case _ => false
    ensures Answers(host, p, L, pc, Step(host, p, pc, c.data), c, n)
  {
    hide Laid, ExecInst, ExecCode, FlowsTo;
    CodeOf(p, L, pc);
    OneStep(host, L.blocks, c);
    n := 1;
    match p.shapes[pc] {
      case Goto(t) => LabelOf(p, L, t);
      case BranchNext(test, t) =>
        LabelOf(p, L, t);
        var next: Pos :| ShapeAt(L.blocks, L.labels, p.At(pc), pc, L.start[pc], Some(next))
          && FlowsTo(p, L, next, pc + 1);
        var o := BlockGraph.Step(host, L.blocks, c);
        if o.Running? && !Holds(test, IntVal(c.data.vars, test.v).value) {
          var m := Settle(host, p, L, o.config, pc + 1);
          RunAdds(host, L.blocks, c, 1, m);
          n := 1 + m;
        }
      case BranchLabels(test, t) =>
        LabelOf(p, L, t);
        LabelOf(p, L, pc + 1);
    }
  }

  lemma LeaveEnds<W>(host: Host<W>, p: Program, pc: nat, d: Data<W>)
    requires (p.At(pc).Stop? || p.At(pc).Yield?)
    ensures Step(host, p, pc, d) == Leave(p.At(pc).term, ExecCode(host, p.At(pc).code, d))
      && !Step(host, p, pc, d).Next?
  {
    hide ExecInst, ExecCode;
  }

  lemma AnswerStop<W>(host: Host<W>, p: Program, L: Layout, c: Config<W>, pc: nat) returns (n: nat)
    requires Laid(p, L) && pc <= |p.shapes| && StandsAt(p, L, c, pc, c.data)
    requires (p.At(pc).Stop? || p.At(pc).Yield?) && IsReturn(p.At(pc).term)
    ensures Answers(host, p, L, pc, Step(host, p, pc, c.data), c, n)
  {
    hide Laid, ExecInst, ExecCode, FlowsTo, StopAt, SameEnd, Leave;
    LaidFacts(p, L);
    var code, term := p.At(pc).code, p.At(pc).term;
    if pc < |p.shapes| {
      CodeOf(p, L, pc);
    }
    if p.At(pc).Stop? {
      StopAnswers(host, L.blocks, c, code, term);
      n := |code| + 1;
    } else {
      var b: BlockId :| EndsWith(L.blocks, Pos(c.block, c.index), JumpTo(b)) && StopAt(L.blocks, Pos(b, 0), code, term);
      OneStep(host, L.blocks, c);
      StopAnswers(host, L.blocks, Config(b, 0, c.data), code, term);
      RunAdds(host, L.blocks, c, 1, |code| + 1);
      n := |code| + 2;
    }
    LeaveEnds(host, p, pc, c.data);
  }

  lemma Answer<W>(host: Host<W>, types: seq<ClifType>, p: Program, L: Layout, c: Config<W>, pc: nat) returns (n: nat)
    requires Laid(p, L) && ProgramOk(types, p) && pc <= |p.shapes| && StandsAt(p, L, c, pc, c.data)
    ensures Answers(host, p, L, pc, Step(host, p, pc, c.data), c, n)
  {
    hide Laid, Answers, StandsAt, Step, CodeTyped;
    if pc == |p.shapes| || p.shapes[pc].Stop? || p.shapes[pc].Yield? {
      n := AnswerStop(host, p, L, c, pc);
    } else if p.shapes[pc].Straight? {
      n := AnswerStraight(host, p, L, c, pc);
    } else {
      n := AnswerBranch(host, p, L, c, pc);
    }
  }

  // m program steps are matched by n graph steps, and n grows with m: at most |shapes| program
  // steps in a row can be free.
  ghost predicate Matches<W>(host: Host<W>, p: Program, L: Layout, pc: nat, m: nat, r: Result<W>, c: Config<W>, n: nat)
  {
    var o := BlockGraph.Run(host, L.blocks, c, n);
    match r
    case Next(pc', d') =>
      o.Running? && StandsAt(p, L, o.config, pc', d') && pc' <= |p.shapes| && m + pc <= n * (|p.shapes| + 1) + pc'
    case _ => SameEnd(r, o)
  }

  lemma MulMonotone(a: nat, b: nat, c: nat)
    ensures a <= b ==> a * c <= b * c
  {
  }

  lemma Distribute(a: nat, b: nat, c: nat)
    ensures (a + b) * c == a * c + b * c
  {
  }

  lemma MatchAdds<W>(host: Host<W>, p: Program, L: Layout, pc: nat, pc': nat, d': Data<W>, m: nat, r: Result<W>,
      c: Config<W>, n: nat, k: nat)
    requires m > 0 && pc <= |p.shapes| && Answers(host, p, L, pc, Next(pc', d'), c, n)
    requires Matches(host, p, L, pc', m - 1, r, BlockGraph.Run(host, L.blocks, c, n).config, k)
    ensures Matches(host, p, L, pc, m, r, c, n + k)
  {
    hide StandsAt, BlockGraph.Step;
    RunAdds(host, L.blocks, c, n, k);
    var z := |p.shapes| + 1;
    Distribute(n, k, z);
    MulMonotone(1, n, z);
  }

  lemma {:induction false} RunForward<W>(host: Host<W>, types: seq<ClifType>, p: Program, L: Layout, c: Config<W>,
      pc: nat, m: nat)
    returns (n: nat)
    requires Laid(p, L) && ProgramOk(types, p) && pc <= |p.shapes| && StandsAt(p, L, c, pc, c.data)
    ensures Matches(host, p, L, pc, m, Run(host, p, pc, c.data, m), c, n)
    decreases m
  {
    hide Laid, ProgramOk, Step, BlockGraph.Step;
    n := 0;
    if m > 0 {
      var k := Answer(host, types, p, L, c, pc);
      n := k;
      match Step(host, p, pc, c.data) {
        case Next(pc', d') =>
          var rest := RunForward(host, types, p, L, BlockGraph.Run(host, L.blocks, c, k).config, pc', m - 1);
          MatchAdds(host, p, L, pc, pc', d', m, Run(host, p, pc, c.data, m), c, k, rest);
          n := k + rest;
        case _ =>
      }
    }
  }

  // Whatever the program ends with, the graph ends with.
  lemma ResultKept<W>(host: Host<W>, types: seq<ClifType>, p: Program, L: Layout, c: Config<W>, pc: nat, m: nat)
    returns (n: nat)
    requires Laid(p, L) && ProgramOk(types, p) && pc <= |p.shapes| && AtPc(p, L, Pos(c.block, c.index), pc)
    requires !Run(host, p, pc, c.data, m).Next?
    ensures SameEnd(Run(host, p, pc, c.data, m), BlockGraph.Run(host, L.blocks, c, n))
  {
    hide Laid, ProgramOk, Step, BlockGraph.Step, AtPc;
    n := RunForward(host, types, p, L, c, pc, m);
  }

  function Pace(p: Program, n: nat): nat
  {
    (n + 1) * (|p.shapes| + 1)
  }

  // The graph cannot end within n steps while the program still runs after Pace(p, n) of its own.
  lemma KeepsPace<W>(host: Host<W>, types: seq<ClifType>, p: Program, L: Layout, c: Config<W>, pc: nat, n: nat, m: nat)
    requires Laid(p, L) && ProgramOk(types, p) && pc <= |p.shapes| && AtPc(p, L, Pos(c.block, c.index), pc)
    requires m >= Pace(p, n) && Run(host, p, pc, c.data, m).Next?
    ensures BlockGraph.Run(host, L.blocks, c, n).Running?
  {
    hide Laid, ProgramOk, Step, BlockGraph.Step, AtPc;
    var r := RunForward(host, types, p, L, c, pc, m);
    var z := |p.shapes| + 1;
    MulMonotone(r, n, z);
    assert Pace(p, n) == n * z + z;
    if !BlockGraph.Run(host, L.blocks, c, n).Running? {
      BlockGraph.RunEnds(host, L.blocks, c, n, r);
    }
  }

  // Whatever the graph ends with, the program ends with; in particular the graph does not end
  // when the program runs for ever.
  lemma ResultReflected<W>(host: Host<W>, types: seq<ClifType>, p: Program, L: Layout, c: Config<W>, pc: nat, n: nat)
    returns (m: nat)
    requires Laid(p, L) && ProgramOk(types, p) && pc <= |p.shapes| && AtPc(p, L, Pos(c.block, c.index), pc)
    requires !BlockGraph.Run(host, L.blocks, c, n).Running?
    ensures SameEnd(Run(host, p, pc, c.data, m), BlockGraph.Run(host, L.blocks, c, n))
  {
    hide Laid, ProgramOk, Step, BlockGraph.Step, AtPc;
    m := Pace(p, n);
    if Run(host, p, pc, c.data, m).Next? {
      KeepsPace(host, types, p, L, c, pc, n, m);
    }
    var r := ResultKept(host, types, p, L, c, pc, m);
    BlockGraph.RunEnds(host, L.blocks, c, if n <= r then n else r, if n <= r then r else n);
  }

  // A pc that got no code is never reached.
  lemma SkippedIsUnreachable<W>(host: Host<W>, types: seq<ClifType>, p: Program, L: Layout, c: Config<W>, pc: nat,
      m: nat)
    requires Laid(p, L) && ProgramOk(types, p) && pc <= |p.shapes| && AtPc(p, L, Pos(c.block, c.index), pc)
    requires Run(host, p, pc, c.data, m).Next?
    ensures var pc' := Run(host, p, pc, c.data, m).pc; pc' == |p.shapes| || pc' in L.start
  {
    hide Laid, ProgramOk, Step, BlockGraph.Step;
    var r := RunForward(host, types, p, L, c, pc, m);
  }
}
