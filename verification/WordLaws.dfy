/** What the shared words of the two compilers and of the value representation stand for: wrapping
    and truncation, branching on a comparison, jumps, and the constants that compiled code names. */
module WordLaws {
  import opened MachineWords
  import opened Options
  import E = Eir
  import B = Bytecode
  import V = Boxing

  const WORD_SPAN := 0x1_0000_0000_0000_0000

  // The bits of a signed word, as a number.
  function Unsigned(w: i64): (u: int)
    ensures 0 <= u < WORD_SPAN
  {
    if w < 0 then w as int + WORD_SPAN else w as int
  }

  // ---------------------------------------------------------------- arithmetic

  lemma MultipleIsZero(k: int, n: int)
    requires n > 0 && -n < k * n < n
    ensures k == 0
  {
    assert k > 0 ==> k * n >= n;
    assert k < 0 ==> k * n <= -n;
  }

  // Wrapping gives the one word that differs from the number by a multiple of two to the 64th.
  lemma WrapExact(x: int, w: i64)
    ensures w == Wrap(x) <==> exists k: int :: x == w as int + k * WORD_SPAN
  {
    var q := x / WORD_SPAN;
    assert x == x % WORD_SPAN + q * WORD_SPAN;
    assert x == Wrap(x) as int + (if x % WORD_SPAN > MAX_I64 then q + 1 else q) * WORD_SPAN;
    if k: int :| x == w as int + k * WORD_SPAN {
      var j := if x % WORD_SPAN > MAX_I64 then q + 1 else q;
      assert (j - k) * WORD_SPAN == w as int - Wrap(x) as int;
    }
  }

  function Magnitude(x: int): nat { if x < 0 then -x else x }

  // The remainder is smaller than the divisor and has the sign of the dividend.
  predicate Truncates(l: int, r: int, q: int)
  {
    var rest := l - q * r;
    Magnitude(rest) < Magnitude(r) && (rest == 0 || (rest > 0) == (l > 0))
  }

  lemma Signs(q: int, b: int)
    ensures (-q) * (-b) == q * b && (-q) * b == -(q * b) && q * (-b) == -(q * b)
  {
  }

  lemma Divided(a: nat, b: nat) returns (q: nat, rest: nat)
    requires b > 0
    ensures a == q * b + rest && rest < b && q == a / b
  {
    q, rest := a / b, a % b;
  }

  lemma QuotientTruncates(l: int, r: int)
    requires r != 0
    ensures Truncates(l, r, Quotient(l, r))
  {
    var q, rest := Divided(Magnitude(l), Magnitude(r));
    Signs(q, Magnitude(r));
    var p := q * Magnitude(r);
    assert Quotient(l, r) == if (l >= 0) == (r > 0) then q else -q;
    assert Quotient(l, r) * r == if l >= 0 then p else -p;
  }

  lemma TruncatedOnce(l: int, r: int, p: int, q: int)
    requires r != 0 && Truncates(l, r, p) && Truncates(l, r, q)
    ensures p == q
  {
    assert (p - q) * r == (l - q * r) - (l - p * r);
    if r > 0 {
      MultipleIsZero(p - q, r);
    } else {
      assert (q - p) * (-r) == (p - q) * r;
      MultipleIsZero(q - p, -r);
    }
  }

  // Division drops the fraction.
  lemma QuotientExact(l: int, r: int, q: int)
    requires r != 0
    ensures q == Quotient(l, r) <==> Truncates(l, r, q)
  {
    QuotientTruncates(l, r);
    if Truncates(l, r, q) {
      TruncatedOnce(l, r, q, Quotient(l, r));
    }
  }

  // ---------------------------------------------------------------- branching

  predicate Holds(op: BinaryOp, x: i64, y: i64)
  {
    match op
    case Eq => x == y
    case Ne => x != y
    case Lt => x < y
    case Le => x <= y
    case Gt => x > y
    case Ge => x >= y
    case _ => false
  }

  // A branch on the result of a comparison falls through exactly when the comparison holds.
  lemma ComparisonBranches<W>(host: Host<W>, env: E.Env, f: E.Function, s: E.State<W>, dest: nat, op: BinaryOp,
                              l: nat, r: nat, t: nat)
    requires s.pc + 1 < |f.code| && op in {Eq, Ne, Lt, Le, Gt, Ge}
    requires f.code[s.pc] == E.Binary(dest, op, E.TI64, l, r) && f.code[s.pc + 1] == E.BranchIfFalse(dest, t)
    requires E.ReadInt(s.regs, l).Some? && E.ReadInt(s.regs, r).Some?
    ensures
      var o := E.Run(host, env, f, s, 2);
      && o.Running?
      && (o.state.pc == s.pc + 2 || o.state.pc == t)
      && o.state.pc == if Holds(op, s.regs[l].i, s.regs[r].i) then s.pc + 2 else t
  {
    var x, y := s.regs[l].i, s.regs[r].i;
    assert E.IntOp(host, op, x, y) == Some(if Holds(op, x, y) then 1 else 0);
    var s1 := s.(pc := s.pc + 1, regs := s.regs[dest := I(if Holds(op, x, y) then 1 else 0)]);
    assert E.Step(host, env, f, s) == E.Running(s1);
    hide E.IntOp;
    var s2 := s1.(pc := if Holds(op, x, y) then s.pc + 2 else t);
    assert E.Step(host, env, f, s1) == E.Running(s2);
    hide E.Step;
    assert E.Run(host, env, f, s1, 1) == E.Run(host, env, f, s2, 0) == E.Running(s2);
  }

  // ---------------------------------------------------------------- jumps of the bytecode

  // A distance is read in two's complement.
  lemma DistanceExact(operand: B.u32)
    ensures -0x8000_0000 <= B.Distance(operand) < 0x8000_0000
    ensures B.Distance(operand) == operand as int || B.Distance(operand) + 0x1_0000_0000 == operand as int
  {
  }

  // A distance counts from behind the jump, and a loop goes back by what a jump went forward.
  lemma LoopUndoesJump(pc: nat, jump: B.Instruction, loop: B.Instruction)
    requires jump.op.Jump? || jump.op.JumpIfFalse?
    requires loop.op.Loop? && loop.operand == jump.operand
    ensures jump.operand == 0 ==> B.Target(pc, jump) == Some(pc + 1)
    ensures jump.operand as int < 0x8000_0000 ==> B.Target(pc, jump).value == pc + 1 + jump.operand as int
    ensures
      var there := B.Target(pc, jump).value;
      there > 0 ==> B.Target(there - 1, loop) == Some(pc + 1)
  {
  }

  // ---------------------------------------------------------------- constants

  // The words that compiled code loads for null, false and true are the boxed values.
  lemma ConstantsAreBoxed(m: V.Memory)
    ensures Unsigned(B.TAG_NULL) == V.Boxed(m, V.NullContent)
    ensures Unsigned(B.TAG_FALSE) == V.Boxed(m, V.Flag(false))
    ensures Unsigned(B.TAG_TRUE) == V.Boxed(m, V.Flag(true))
  {
  }

  // What the loading instructions load.
  lemma LoadsAreBoxed<W>(host: Host<W>, f: B.Function, s: B.State<W>, m: V.Memory)
    requires B.WellFormed(f) && s.pc < |f.code| && B.RegsBelow(f.code[s.pc], |s.regs|)
    requires f.code[s.pc].op == B.LoadBool || f.code[s.pc].op == B.LoadNull
    ensures
      var i, o := f.code[s.pc], B.Step(host, f, s);
      && o.Running? && |o.state.regs| == |s.regs|
      && Unsigned(o.state.regs[i.ra()])
         == V.Boxed(m, if i.op == B.LoadNull then V.NullContent else V.Flag(i.b != 0))
  {
    ConstantsAreBoxed(m);
    hide V.Boxed, B.HelperName;
  }

  // A jump if false is taken for null and false, and for nothing else.
  lemma FalseyExact(m: V.Memory, c: V.Content, w: i64)
    requires V.Storable(m, c) && Unsigned(w) == V.Boxed(m, c)
    ensures B.Falsey(w) <==> c == V.NullContent || c == V.Flag(false)
  {
    V.TruthExact(m, c);
    hide V.Boxed;
  }

  // The built-in functions are natives by small numbers.
  lemma BuiltinsAreNatives(name: string)
    ensures E.BuiltinTag(name).Some? <==> name in ["print", "println", "serve", "JSON"]
    ensures
      var tag := E.BuiltinTag(name);
      tag.Some? ==>
        && V.KindOf(Unsigned(tag.value)) == V.Native
        && V.LowPart(Unsigned(tag.value)) == if name == "serve" then 2 else if name == "JSON" then 3 else 1
  {
  }
}
