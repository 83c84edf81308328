/** MD5 and its keyed form (crates/eronom-vm/src/std_crypto.rs:20-126).  RFC 1321 works on four
    registers in place, each operation naming the part that every register plays; the code moves
    the values around instead, and computes the message indices that the RFC lists. */
module Md5 {
  const SPAN := 0x1_0000_0000

  type byte = x: int | 0 <= x < 256

  type word = x: int | 0 <= x < SPAN

  // ---------------------------------------------------------------- bits

  function Pow2(n: nat): (p: nat)
    ensures p >= 1
  {
    if n == 0 then 1 else 2 * Pow2(n - 1)
  }

  // The bits that two numbers share.
  function And(x: nat, y: nat): (z: nat)
    ensures z <= x && z <= y
  {
    if x == 0 || y == 0 then 0 else 2 * And(x / 2, y / 2) + (x % 2) * (y % 2)
  }

  lemma {:induction false} AndCommutes(x: nat, y: nat)
    ensures And(x, y) == And(y, x)
  {
    if x != 0 && y != 0 {
      AndCommutes(x / 2, y / 2);
    }
  }

  // The bits of two numbers together take no more room than the longer one.
  lemma {:induction false} UnionFits(x: nat, y: nat, n: nat)
    requires x < Pow2(n) && y < Pow2(n)
    ensures x + y - And(x, y) < Pow2(n)
    decreases n
  {
    if x != 0 && y != 0 {
      UnionFits(x / 2, y / 2, n - 1);
      assert x % 2 == 0 || x % 2 == 1;
    }
  }

  lemma {:induction false} Pow2Adds(a: nat, b: nat)
    ensures Pow2(a + b) == Pow2(a) * Pow2(b)
    decreases a
  {
    if a > 0 {
      Pow2Adds(a - 1, b);
    }
  }

  lemma Powers()
    ensures Pow2(8) == 256 && Pow2(32) == SPAN
  {
    assert Pow2(8) == 256;
    Pow2Adds(8, 8);
    Pow2Adds(16, 16);
  }

  function Or(x: word, y: word): word
  {
    Powers();
    UnionFits(x, y, 32);
    x + y - And(x, y)
  }

  function Xor(x: word, y: word): word
  {
    Powers();
    UnionFits(x, y, 32);
    AndCommutes(x, y);
    x + y - 2 * And(x, y)
  }

  function XorByte(x: byte, y: byte): byte
  {
    Powers();
    UnionFits(x, y, 8);
    AndCommutes(x, y);
    x + y - 2 * And(x, y)
  }

  function Not(x: word): word { SPAN - 1 - x }

  // Addition drops the carry.
  function Plus(x: word, y: word): word { (x + y) % SPAN }

  lemma MulMonotone(a: nat, b: nat, c: nat)
    ensures b <= c ==> a * b <= a * c
  {
  }

  lemma RotationFits(x: nat, p: nat, q: nat)
    requires p > 0 && q > 0 && x < p * q
    ensures (x % q) * p + x / q < p * q
  {
    var l, h := x % q, x / q;
    assert x == q * h + l;
    MulMonotone(q, p, h);
    MulMonotone(p, l + 1, q);
    assert p * (l + 1) == l * p + p;
  }

  function Shuffled(x: nat, p: nat, q: nat): (r: nat)
    requires p > 0 && q > 0 && x < p * q
    ensures r < p * q
  {
    RotationFits(x, p, q);
    (x % q) * p + x / q
  }

  // The s high bits come in behind the low ones.
  function Rotated(x: word, s: nat): word
    requires s <= 32
  {
    var p, q := Pow2(s), Pow2(32 - s);
    Powers();
    Pow2Adds(s, 32 - s);
    Shuffled(x, p, q)
  }

  // ---------------------------------------------------------------- bit by bit

  predicate Bit(x: nat, i: nat)
  {
    if i == 0 then x % 2 == 1 else Bit(x / 2, i - 1)
  }

  lemma {:induction false} ZeroBit(i: nat)
    ensures !Bit(0, i)
  {
    if i > 0 {
      ZeroBit(i - 1);
    }
  }

  lemma AndHalves(x: nat, y: nat)
    ensures And(x, y) / 2 == And(x / 2, y / 2) && And(x, y) % 2 == (if x % 2 == 1 && y % 2 == 1 then 1 else 0)
  {
    if x != 0 && y != 0 {
      var a, b := x % 2, y % 2;
      assert a == 0 || a == 1;
      assert a * b == if a == 1 && b == 1 then 1 else 0;
    }
  }

  lemma {:induction false} AndBit(x: nat, y: nat, i: nat)
    ensures Bit(And(x, y), i) <==> Bit(x, i) && Bit(y, i)
    decreases i
  {
    ZeroBit(i);
    if x != 0 && y != 0 {
      AndHalves(x, y);
      if i > 0 {
        AndBit(x / 2, y / 2, i - 1);
      }
    }
  }

  lemma AndHalf(x: nat, y: nat) returns (a: nat)
    ensures a == And(x / 2, y / 2) && a <= x / 2 && a <= y / 2
    ensures And(x, y) == 2 * a + if x % 2 == 1 && y % 2 == 1 then 1 else 0
  {
    AndHalves(x, y);
    a := And(x / 2, y / 2);
  }

  lemma {:induction false} UnionBit(x: nat, y: nat, i: nat)
    requires And(x, y) <= x + y
    ensures Bit(x + y - And(x, y), i) <==> Bit(x, i) || Bit(y, i)
    decreases i
  {
    var a := AndHalf(x, y);
    assert (x + y - And(x, y)) / 2 == x / 2 + y / 2 - a;
    if i > 0 {
      UnionBit(x / 2, y / 2, i - 1);
    }
  }

  lemma {:induction false} DifferenceBit(x: nat, y: nat, i: nat)
    requires 2 * And(x, y) <= x + y
    ensures Bit(x + y - 2 * And(x, y), i) <==> Bit(x, i) != Bit(y, i)
    decreases i
  {
    var a := AndHalf(x, y);
    assert (x + y - 2 * And(x, y)) / 2 == x / 2 + y / 2 - 2 * a;
    if i > 0 {
      DifferenceBit(x / 2, y / 2, i - 1);
    }
  }

  lemma {:induction false} ComplementBit(x: nat, n: nat, i: nat)
    requires i < n && x < Pow2(n)
    ensures Bit(Pow2(n) - 1 - x, i) <==> !Bit(x, i)
    decreases i
  {
    var m := Pow2(n - 1);
    assert Pow2(n) == 2 * m;
    assert (2 * m - 1 - x) / 2 == m - 1 - x / 2;
    if i > 0 {
      ComplementBit(x / 2, n - 1, i - 1);
    }
  }

  // Two numbers put one behind the other.
  lemma {:induction false} JoinedBits(high: nat, low: nat, s: nat, i: nat)
    requires low < Pow2(s)
    ensures Bit(high * Pow2(s) + low, i) <==> if i < s then Bit(low, i) else Bit(high, i - s)
    decreases i
  {
    if s > 0 {
      var p := Pow2(s - 1);
      assert high * Pow2(s) == 2 * (high * p);
      assert (2 * (high * p) + low) / 2 == high * p + low / 2;
      assert (2 * (high * p) + low) % 2 == low % 2;
      if i > 0 {
        JoinedBits(high, low / 2, s - 1, i - 1);
      }
    }
  }

  lemma JointBits(x: word, y: word, i: nat)
    ensures Bit(Or(x, y), i) <==> Bit(x, i) || Bit(y, i)
    ensures Bit(Xor(x, y), i) <==> Bit(x, i) != Bit(y, i)
  {
    hide Bit, Pow2;
    AndCommutes(x, y);
    hide And;
    UnionBit(x, y, i);
    DifferenceBit(x, y, i);
  }

  /** The operations on words do to every bit what their names say. */
  lemma WordBits(x: word, y: word, i: nat)
    requires i < 32
    ensures Bit(And(x, y), i) <==> Bit(x, i) && Bit(y, i)
    ensures Bit(Or(x, y), i) <==> Bit(x, i) || Bit(y, i)
    ensures Bit(Xor(x, y), i) <==> Bit(x, i) != Bit(y, i)
    ensures Bit(Not(x), i) <==> !Bit(x, i)
  {
    hide Bit, And, Or, Xor;
    Powers();
    hide Pow2;
    AndBit(x, y, i);
    ComplementBit(x, 32, i);
    JointBits(x, y, i);
  }

  lemma ByteBits(x: byte, y: byte, i: nat)
    requires i < 8
    ensures Bit(XorByte(x, y), i) <==> Bit(x, i) != Bit(y, i)
  {
    AndCommutes(x, y);
    DifferenceBit(x, y, i);
  }

  lemma ShuffledParts(x: nat, p: nat, q: nat) returns (high: nat, low: nat)
    requires p > 0 && q > 0 && x < p * q
    ensures high < p && low < q && x == high * q + low && Shuffled(x, p, q) == low * p + high
  {
    high, low := x / q, x % q;
    MulMonotone(q, p, high);
  }

  lemma RotatedIs(x: word, s: nat)
    requires s <= 32
    ensures x < Pow2(s) * Pow2(32 - s) && Rotated(x, s) == Shuffled(x, Pow2(s), Pow2(32 - s))
  {
    Powers();
    Pow2Adds(s, 32 - s);
  }

  lemma RotatedParts(x: word, s: nat) returns (high: nat, low: nat)
    requires s <= 32
    ensures high < Pow2(s) && low < Pow2(32 - s) && x == high * Pow2(32 - s) + low
    ensures Rotated(x, s) == low * Pow2(s) + high
  {
    hide Pow2, Shuffled, Rotated;
    RotatedIs(x, s);
    high, low := ShuffledParts(x, Pow2(s), Pow2(32 - s));
  }

  // A rotation takes every bit s places up, and around.
  lemma RotatedBit(x: word, s: nat, i: nat)
    requires s <= 32 && i < 32
    ensures Bit(Rotated(x, s), if i + s < 32 then i + s else i + s - 32) <==> Bit(x, i)
  {
    hide Pow2, Rotated, Bit;
    var high, low := RotatedParts(x, s);
    JoinedBits(high, low, 32 - s, i);
    JoinedBits(low, high, s, if i + s < 32 then i + s else i + s - 32);
  }

  // ---------------------------------------------------------------- RFC 1321

  datatype Regs = Regs(a: word, b: word, c: word, d: word)

  // The auxiliary functions of section 3.4, by round.
  function Mix(round: nat, x: word, y: word, z: word): word
  {
    if round == 0 then Or(And(x, y), And(Not(x), z))
    else if round == 1 then Or(And(x, z), And(y, Not(z)))
    else if round == 2 then Xor(Xor(x, y), z)
    else Xor(y, Or(x, Not(z)))
  }

  // The message word and the shift of each operation, in the order of the RFC's lists.
  const INDICES1: seq<nat> := [0, 1, 2, 3, 4, 5, 6, 7, 8, 9, 10, 11, 12, 13, 14, 15]

  const INDICES2: seq<nat> := [1, 6, 11, 0, 5, 10, 15, 4, 9, 14, 3, 8, 13, 2, 7, 12]

  const INDICES3: seq<nat> := [5, 8, 11, 14, 1, 4, 7, 10, 13, 0, 3, 6, 9, 12, 15, 2]

  const INDICES4: seq<nat> := [0, 7, 14, 5, 12, 3, 10, 1, 8, 15, 6, 13, 4, 11, 2, 9]

  const AMOUNTS1: seq<nat> := [7, 12, 17, 22]

  const AMOUNTS2: seq<nat> := [5, 9, 14, 20]

  const AMOUNTS3: seq<nat> := [4, 11, 16, 23]

  const AMOUNTS4: seq<nat> := [6, 10, 15, 21]

  // The table made of the sine function, by round.
  const SINES1: seq<word> := [
    0xd76aa478, 0xe8c7b756, 0x242070db, 0xc1bdceee, 0xf57c0faf, 0x4787c62a, 0xa8304613, 0xfd469501,
    0x698098d8, 0x8b44f7af, 0xffff5bb1, 0x895cd7be, 0x6b901122, 0xfd987193, 0xa679438e, 0x49b40821]

  const SINES2: seq<word> := [
    0xf61e2562, 0xc040b340, 0x265e5a51, 0xe9b6c7aa, 0xd62f105d, 0x02441453, 0xd8a1e681, 0xe7d3fbc8,
    0x21e1cde6, 0xc33707d6, 0xf4d50d87, 0x455a14ed, 0xa9e3e905, 0xfcefa3f8, 0x676f02d9, 0x8d2a4c8a]

  const SINES3: seq<word> := [
    0xfffa3942, 0x8771f681, 0x6d9d6122, 0xfde5380c, 0xa4beea44, 0x4bdecfa9, 0xf6bb4b60, 0xbebfbc70,
    0x289b7ec6, 0xeaa127fa, 0xd4ef3085, 0x04881d05, 0xd9d4d039, 0xe6db99e5, 0x1fa27cf8, 0xc4ac5665]

  const SINES4: seq<word> := [
    0xf4292244, 0x432aff97, 0xab9423a7, 0xfc93a039, 0x655b59c3, 0x8f0ccc92, 0xffeff47d, 0x85845dd1,
    0x6fa87e4f, 0xfe2ce6e0, 0xa3014314, 0x4e0811a1, 0xf7537e82, 0xbd3af235, 0x2ad7d2bb, 0xeb86d391]

  function IndexAt(i: nat): nat
    requires i < 64
  {
    if i < 16 then INDICES1[i] else if i < 32 then INDICES2[i - 16] else if i < 48 then INDICES3[i - 32]
      else INDICES4[i - 48]
  }

  function AmountAt(i: nat): (s: nat)
    requires i < 64
    ensures s <= 32
  {
    if i < 16 then AMOUNTS1[i % 4]
    else if i < 32 then AMOUNTS2[(i - 16) % 4]
    else if i < 48 then AMOUNTS3[(i - 32) % 4]
    else AMOUNTS4[(i - 48) % 4]
  }

  function SineAt(i: nat): word
    requires i < 64
  {
    if i < 16 then SINES1[i] else if i < 32 then SINES2[i - 16] else if i < 48 then SINES3[i - 32] else SINES4[i - 48]
  }

  // a = b + ((a + Mix(b, c, d) + X[k] + T[i]) <<< s)
  function Operation(a: word, b: word, c: word, d: word, x: word, i: nat): word
    requires i < 64
  {
    Plus(b, Rotated(Plus(Plus(Plus(a, Mix(i / 16, b, c, d)), x), SineAt(i)), AmountAt(i)))
  }

  // The operations come in fours: [ABCD], [DABC], [CDAB], [BCDA].
  function Operate(r: Regs, x: word, i: nat): Regs
    requires i < 64
  {
    if i % 4 == 0 then r.(a := Operation(r.a, r.b, r.c, r.d, x, i))
    else if i % 4 == 1 then r.(d := Operation(r.d, r.a, r.b, r.c, x, i))
    else if i % 4 == 2 then r.(c := Operation(r.c, r.d, r.a, r.b, x, i))
    else r.(b := Operation(r.b, r.c, r.d, r.a, x, i))
  }

  function CodeIndex(i: nat): (k: nat)
    requires i < 64
    ensures k < 16
  {
    if i < 16 then i
    else if i < 32 then (5 * i + 1) % 16
    else if i < 48 then (3 * i + 5) % 16
    else (7 * i) % 16
  }

  lemma Listed1(j: nat)
    requires j < 16
    ensures INDICES1[j] == j
  {
  }

  lemma Listed2(j: nat)
    requires j < 16
    ensures INDICES2[j] == (5 * j + 1) % 16
  {
  }

  lemma ModSame(a: nat, k: nat)
    ensures (a + 16 * k) % 16 == a % 16
  {
  }

  lemma SameIndex2(i: nat)
    requires 16 <= i < 32
    ensures IndexAt(i) == CodeIndex(i)
  {
    Listed2(i - 16);
    assert 5 * i + 1 == (5 * (i - 16) + 1) + 16 * 5;
    ModSame(5 * (i - 16) + 1, 5);
  }

  lemma Listed3(j: nat)
    requires j < 16
    ensures INDICES3[j] == (3 * j + 5) % 16
  {
  }

  lemma SameIndex3(i: nat)
    requires 32 <= i < 48
    ensures IndexAt(i) == CodeIndex(i)
  {
    Listed3(i - 32);
    assert 3 * i + 5 == (3 * (i - 32) + 5) + 16 * 6;
    ModSame(3 * (i - 32) + 5, 6);
  }

  lemma Listed4(j: nat)
    requires j < 16
    ensures INDICES4[j] == (7 * j) % 16
  {
  }

  lemma SameIndex4(i: nat)
    requires 48 <= i < 64
    ensures IndexAt(i) == CodeIndex(i)
  {
    Listed4(i - 48);
    assert 7 * i == 7 * (i - 48) + 16 * 21;
    ModSame(7 * (i - 48), 21);
  }

  // The computed indices are the listed ones.
  lemma SameIndex(i: nat)
    requires i < 64
    ensures IndexAt(i) == CodeIndex(i)
  {
    if i < 16 {
      Listed1(i);
    } else {
      hide IndexAt, CodeIndex;
      if i < 32 {
        SameIndex2(i);
      } else if i < 48 {
        SameIndex3(i);
      } else {
        SameIndex4(i);
      }
    }
  }

  function WordAt(xs: seq<word>, i: nat): word
    requires |xs| == 16 && i < 64
  {
    SameIndex(i);
    xs[IndexAt(i)]
  }

  // The first n operations on a block of sixteen words.
  function Operations(r: Regs, xs: seq<word>, n: nat): Regs
    requires |xs| == 16 && n <= 64
  {
    if n == 0 then r else Operate(Operations(r, xs, n - 1), WordAt(xs, n - 1), n - 1)
  }

  // Four bytes, the low-order one first.
  function WordOf(b: seq<byte>): word
    requires |b| == 4
  {
    b[0] + 0x100 * (b[1] as int) + 0x1_0000 * (b[2] as int) + 0x100_0000 * (b[3] as int)
  }

  function WordsOf(chunk: seq<byte>): (xs: seq<word>)
    requires |chunk| == 64
    ensures |xs| == 16 && forall i :: 0 <= i < 16 ==> xs[i] == WordOf(chunk[4 * i..4 * i + 4])
  {
    seq(16, i requires 0 <= i < 16 => WordOf(chunk[4 * i..4 * i + 4]))
  }

  function Block(r: Regs, chunk: seq<byte>): Regs
    requires |chunk| == 64
  {
    var s := Operations(r, WordsOf(chunk), 64);
    Regs(Plus(r.a, s.a), Plus(r.b, s.b), Plus(r.c, s.c), Plus(r.d, s.d))
  }

  lemma OneBlock(n: nat)
    requires n % 64 == 0 && n > 0
    ensures n >= 64 && (n - 64) % 64 == 0
  {
    assert n == 64 * (n / 64);
  }

  function Blocks(r: Regs, msg: seq<byte>): Regs
    requires |msg| % 64 == 0
    decreases |msg|
  {
    if msg == [] then r else
    OneBlock(|msg|);
    Blocks(Block(r, msg[..64]), msg[64..])
  }

  // Section 3.3: the bytes of the four words, the low-order one first.
  function Initial(): Regs
  {
    Regs(WordOf([0x01, 0x23, 0x45, 0x67]), WordOf([0x89, 0xab, 0xcd, 0xef]),
         WordOf([0xfe, 0xdc, 0xba, 0x98]), WordOf([0x76, 0x54, 0x32, 0x10]))
  }

  // The number of zero bytes behind the first byte of padding.
  function PadCount(n: nat): (z: nat)
    ensures z < 64 && (n + 1 + z) % 64 == 56
  {
    (119 - n % 64) % 64
  }

  function Zeros(n: nat): (s: seq<byte>)
    ensures |s| == n && forall i :: 0 <= i < n ==> s[i] == 0
  {
    seq(n, i => 0)
  }

  // n in k bytes, the low-order one first, without what does not fit.
  function LowFirst(n: nat, k: nat): (s: seq<byte>)
    ensures |s| == k
    decreases k
  {
    if k == 0 then [] else [n % 256] + LowFirst(n / 256, k - 1)
  }

  lemma {:induction false} LowFirstWord(x: word)
    ensures WordOf(LowFirst(x, 4)) == x
  {
    var y := x / 256;
    var z := y / 256;
    var w := z / 256;
    assert w < 256;
    assert LowFirst(x, 4) == [x % 256] + LowFirst(y, 3) && LowFirst(y, 3) == [y % 256] + LowFirst(z, 2);
    assert LowFirst(z, 2) == [z % 256] + LowFirst(w, 1) && LowFirst(w, 1) == [w % 256] + LowFirst(w / 256, 0);
    assert LowFirst(x, 4) == [x % 256, y % 256, z % 256, w];
  }

  lemma PadTotal(n: nat)
    requires n % 64 == 56
    ensures (n + 8) % 64 == 0
  {
    assert n + 8 == 64 * (n / 64 + 1);
  }

  // Sections 3.1 and 3.2.
  function Padded(data: seq<byte>): (msg: seq<byte>)
    ensures |msg| % 64 == 0
  {
    PadTotal(|data| + 1 + PadCount(|data|));
    data + [0x80] + Zeros(PadCount(|data|)) + LowFirst(8 * |data|, 8)
  }

  // What bytes stand for, the low-order one first.
  function Value(s: seq<byte>): nat
  {
    if s == [] then 0 else s[0] + 256 * Value(s[1..])
  }

  function Pow256(k: nat): nat
  {
    if k == 0 then 1 else 256 * Pow256(k - 1)
  }

  lemma Carried(high: nat, v: nat, q: nat, p: nat)
    requires high == v + q * p
    ensures 256 * high == 256 * v + q * (256 * p)
  {
  }

  lemma {:induction false} LowFirstValue(n: nat, k: nat) returns (q: nat)
    ensures n == Value(LowFirst(n, k)) + q * Pow256(k) && Value(LowFirst(n, k)) < Pow256(k)
    decreases k
  {
    if k == 0 {
      q := n;
    } else {
      q := LowFirstValue(n / 256, k - 1);
      Carried(n / 256, Value(LowFirst(n / 256, k - 1)), q, Pow256(k - 1));
      assert LowFirst(n, k)[1..] == LowFirst(n / 256, k - 1);
    }
  }

  // The padded message is the message, a one bit, zeros, and the number of its bits in 64 bits.
  lemma PaddedStates(data: seq<byte>) returns (q: nat)
    ensures
      var msg := Padded(data);
      && |data| + 9 <= |msg| < |data| + 73 && msg[..|data|] == data && msg[|data|] == 0x80
      && (forall i :: |data| < i < |msg| - 8 ==> msg[i] == 0)
      && 8 * |data| == Value(msg[|msg| - 8..]) + q * Pow256(8)
  {
    q := LowFirstValue(8 * |data|, 8);
    hide LowFirst, Value, Pow256;
    var msg := Padded(data);
    assert msg[|msg| - 8..] == LowFirst(8 * |data|, 8);
  }

  // Section 3.5.
  function Output(r: Regs): (s: seq<byte>)
    ensures |s| == 16
  {
    LowFirst(r.a, 4) + LowFirst(r.b, 4) + LowFirst(r.c, 4) + LowFirst(r.d, 4)
  }

  function Digest(data: seq<byte>): (s: seq<byte>)
    ensures |s| == 16
  {
    Output(Blocks(Initial(), Padded(data)))
  }

  // ---------------------------------------------------------------- the code's tables

  const SHIFTS1: seq<nat> := [7, 12, 17, 22, 7, 12, 17, 22, 7, 12, 17, 22, 7, 12, 17, 22]

  const SHIFTS2: seq<nat> := [5, 9, 14, 20, 5, 9, 14, 20, 5, 9, 14, 20, 5, 9, 14, 20]

  const SHIFTS3: seq<nat> := [4, 11, 16, 23, 4, 11, 16, 23, 4, 11, 16, 23, 4, 11, 16, 23]

  const SHIFTS4: seq<nat> := [6, 10, 15, 21, 6, 10, 15, 21, 6, 10, 15, 21, 6, 10, 15, 21]

  const K1: seq<word> := [
    0xd76aa478, 0xe8c7b756, 0x242070db, 0xc1bdceee, 0xf57c0faf, 0x4787c62a, 0xa8304613, 0xfd469501,
    0x698098d8, 0x8b44f7af, 0xffff5bb1, 0x895cd7be, 0x6b901122, 0xfd987193, 0xa679438e, 0x49b40821]

  const K2: seq<word> := [
    0xf61e2562, 0xc040b340, 0x265e5a51, 0xe9b6c7aa, 0xd62f105d, 0x02441453, 0xd8a1e681, 0xe7d3fbc8,
    0x21e1cde6, 0xc33707d6, 0xf4d50d87, 0x455a14ed, 0xa9e3e905, 0xfcefa3f8, 0x676f02d9, 0x8d2a4c8a]

  const K3: seq<word> := [
    0xfffa3942, 0x8771f681, 0x6d9d6122, 0xfde5380c, 0xa4beea44, 0x4bdecfa9, 0xf6bb4b60, 0xbebfbc70,
    0x289b7ec6, 0xeaa127fa, 0xd4ef3085, 0x04881d05, 0xd9d4d039, 0xe6db99e5, 0x1fa27cf8, 0xc4ac5665]

  const K4: seq<word> := [
    0xf4292244, 0x432aff97, 0xab9423a7, 0xfc93a039, 0x655b59c3, 0x8f0ccc92, 0xffeff47d, 0x85845dd1,
    0x6fa87e4f, 0xfe2ce6e0, 0xa3014314, 0x4e0811a1, 0xf7537e82, 0xbd3af235, 0x2ad7d2bb, 0xeb86d391]

  function KAt(i: nat): word
    requires i < 64
  {
    if i < 16 then K1[i] else if i < 32 then K2[i - 16] else if i < 48 then K3[i - 32] else K4[i - 48]
  }

  lemma SameSine(i: nat)
    requires i < 64
    ensures KAt(i) == SineAt(i)
  {
    assert K1 == SINES1 && K2 == SINES2 && K3 == SINES3 && K4 == SINES4;
  }

  function ShiftAt(i: nat): nat
    requires i < 64
  {
    if i < 16 then SHIFTS1[i] else if i < 32 then SHIFTS2[i - 16] else if i < 48 then SHIFTS3[i - 32]
      else SHIFTS4[i - 48]
  }

  function CodeMix(i: nat, b: word, c: word, d: word): word
  {
    if i < 16 then Or(And(b, c), And(Not(b), d))
    else if i < 32 then Or(And(d, b), And(Not(d), c))
    else if i < 48 then Xor(Xor(b, c), d)
    else Xor(c, Or(b, Not(d)))
  }

  lemma SameMix(i: nat, b: word, c: word, d: word)
    requires i < 64
    ensures CodeMix(i, b, c, d) == Mix(i / 16, b, c, d)
  {
    hide And, Or, Xor, Not;
    AndCommutes(d, b);
    AndCommutes(Not(d), c);
  }

  lemma Shifts1(j: nat)
    requires j < 16
    ensures SHIFTS1[j] == AMOUNTS1[j % 4]
  {
  }

  lemma Shifts2(j: nat)
    requires j < 16
    ensures SHIFTS2[j] == AMOUNTS2[j % 4]
  {
  }

  lemma Shifts3(j: nat)
    requires j < 16
    ensures SHIFTS3[j] == AMOUNTS3[j % 4]
  {
  }

  lemma Shifts4(j: nat)
    requires j < 16
    ensures SHIFTS4[j] == AMOUNTS4[j % 4]
  {
  }

  lemma SameShift(i: nat)
    requires i < 64
    ensures ShiftAt(i) == AmountAt(i)
  {
    if i < 16 {
      Shifts1(i);
    } else if i < 32 {
      Shifts2(i - 16);
    } else if i < 48 {
      Shifts3(i - 32);
    } else {
      Shifts4(i - 48);
    }
  }

  // ---------------------------------------------------------------- the code's registers

  // The registers in the order in which operation i names them.
  function Turned(r: Regs, i: nat): Regs
  {
    if i % 4 == 0 then r
    else if i % 4 == 1 then Regs(r.d, r.a, r.b, r.c)
    else if i % 4 == 2 then Regs(r.c, r.d, r.a, r.b)
    else Regs(r.b, r.c, r.d, r.a)
  }

  // Operating in place and turning once more is moving the values on.
  lemma TurnedStep(r: Regs, x: word, i: nat)
    requires i < 64
    ensures
      var t := Turned(r, i);
      Turned(Operate(r, x, i), i + 1) == Regs(t.d, Operation(t.a, t.b, t.c, t.d, x, i), t.b, t.c)
  {
    hide Operation;
  }

  lemma {:induction false} SpanMod(z: nat, q: nat)
    ensures (z + SPAN * q) % SPAN == z % SPAN
    decreases q
  {
    if q > 0 {
      SpanMod(z, q - 1);
      assert z + SPAN * q == (z + SPAN * (q - 1)) + SPAN;
    }
  }

  lemma PlusMod(y: nat, x: nat)
    ensures (y % SPAN + x) % SPAN == (y + x) % SPAN
  {
    var q := y / SPAN;
    assert y == SPAN * q + y % SPAN;
    SpanMod(y % SPAN + x, q);
  }

  lemma SameSum(a: word, f: word, t: word, x: word)
    ensures Plus(Plus(Plus(a, f), t), x) == Plus(Plus(Plus(a, f), x), t)
  {
    var y := Plus(a, f);
    PlusMod(y + t, x);
    PlusMod(y + x, t);
  }

  // What the code adds and rotates is the RFC's operation.
  lemma OperationIs(a: word, b: word, c: word, d: word, x: word, i: nat)
    requires i < 64
    ensures ShiftAt(i) <= 32
    ensures Plus(b, Rotated(Plus(Plus(Plus(a, CodeMix(i, b, c, d)), KAt(i)), x), ShiftAt(i)))
      == Operation(a, b, c, d, x, i)
  {
    hide Rotated, Mix, CodeMix, SineAt, KAt, AmountAt, ShiftAt, Plus;
    SameSine(i);
    SameMix(i, b, c, d);
    SameShift(i);
    SameSum(a, Mix(i / 16, b, c, d), SineAt(i), x);
  }

  method LoadWords(chunk: seq<byte>) returns (m: array<word>)
    requires |chunk| == 64
    ensures fresh(m) && m[..] == WordsOf(chunk)
  {
    hide WordOf;
    m := new word[16];
    for i := 0 to 16
      invariant forall j :: 0 <= j < i ==> m[j] == WordOf(chunk[4 * j..4 * j + 4])
    {
      m[i] := WordOf(chunk[4 * i..4 * i + 4]);
    }
  }

  lemma TurnedWhole(r: Regs, i: nat)
    requires i % 4 == 0
    ensures Turned(r, i) == r
  {
  }

  method BlockDigest(r: Regs, chunk: seq<byte>) returns (s: Regs)
    requires |chunk| == 64
    ensures s == Block(r, chunk)
  {
    hide Operation, Operate, Mix, CodeMix, CodeIndex, IndexAt, SineAt, KAt, AmountAt, ShiftAt, Rotated, Turned, WordsOf,
      Plus;
    var m := LoadWords(chunk);
    ghost var xs := m[..];
    var aa, bb, cc, dd := r.a, r.b, r.c, r.d;
    TurnedWhole(r, 0);
    for i := 0 to 64
      invariant m[..] == xs && Regs(aa, bb, cc, dd) == Turned(Operations(r, xs, i), i)
    {
      var f, g := CodeMix(i, bb, cc, dd), CodeIndex(i);
      SameIndex(i);
      assert m[g] == WordAt(xs, i);
      OperationIs(aa, bb, cc, dd, m[g], i);
      TurnedStep(Operations(r, xs, i), m[g], i);
      var temp := dd;
      dd := cc;
      cc := bb;
      var sum := Plus(Plus(Plus(aa, f), KAt(i)), m[g]);
      bb := Plus(bb, Rotated(sum, ShiftAt(i)));
      aa := temp;
    }
    TurnedWhole(Operations(r, xs, 64), 64);
    s := Regs(Plus(r.a, aa), Plus(r.b, bb), Plus(r.c, cc), Plus(r.d, dd));
  }

  // ---------------------------------------------------------------- the code's message

  // Fewer zeros do not fit.
  lemma PadLeast(n: nat, k: nat)
    requires k <= PadCount(n)
    ensures (n + 1 + k) % 64 == 56 <==> k == PadCount(n)
  {
  }

  method PadMessage(data: seq<byte>) returns (msg: seq<byte>)
    ensures msg == Padded(data)
  {
    hide LowFirst;
    msg := data + [0x80];
    ghost var k := 0;
    assert msg + Zeros(0) == msg;
    while |msg| % 64 != 56
      invariant k <= PadCount(|data|) && msg == data + [0x80] + Zeros(k)
      decreases PadCount(|data|) - k
    {
      PadLeast(|data|, k);
      assert Zeros(k) + [0x00] == Zeros(k + 1);
      msg := msg + [0x00];
      k := k + 1;
    }
    PadLeast(|data|, k);
    msg := msg + LowFirst(8 * |data|, 8);
  }

  lemma InitialIs()
    ensures Initial() == Regs(0x67452301, 0xefcdab89, 0x98badcfe, 0x10325476)
  {
  }

  method Md5Digest(data: seq<byte>) returns (digest: seq<byte>)
    ensures digest == Digest(data)
  {
    hide Block, LowFirst, Padded, Initial, Plus;
    var r := Regs(0x67452301, 0xefcdab89, 0x98badcfe, 0x10325476);
    InitialIs();
    var msg := PadMessage(data);
    var at := 0;
    assert msg[0..] == msg;
    while at < |msg|
      invariant 0 <= at <= |msg| && at % 64 == 0 && Blocks(r, msg[at..]) == Blocks(Initial(), msg)
    {
      assert msg[at..][..64] == msg[at..at + 64] && msg[at..][64..] == msg[at + 64..];
      r := BlockDigest(r, msg[at..at + 64]);
      at := at + 64;
    }
    digest := LowFirst(r.a, 4) + LowFirst(r.b, 4) + LowFirst(r.c, 4) + LowFirst(r.d, 4);
  }

  // ---------------------------------------------------------------- RFC 2104

  function Xored(s: seq<byte>, b: byte): (t: seq<byte>)
    ensures |t| == |s| && forall i :: 0 <= i < |s| ==> t[i] == XorByte(s[i], b)
  {
    seq(|s|, i requires 0 <= i < |s| => XorByte(s[i], b))
  }

  // A key is hashed when it is longer than a block, and filled up with zeros.
  function KeyBlock(key: seq<byte>): (s: seq<byte>)
    ensures |s| == 64
  {
    var k := if |key| > 64 then Digest(key) else key;
    k + Zeros(64 - |k|)
  }

  function Hmac(key: seq<byte>, text: seq<byte>): seq<byte>
  {
    Digest(Xored(KeyBlock(key), 0x5c) + Digest(Xored(KeyBlock(key), 0x36) + text))
  }

  method FillKey(key: seq<byte>) returns (keyBlock: array<byte>)
    ensures fresh(keyBlock) && keyBlock[..] == KeyBlock(key)
  {
    hide Digest;
    keyBlock := new byte[64](i => 0);
    var source := key;
    if |key| > 64 {
      source := Md5Digest(key);
    }
    for i := 0 to |source|
      invariant forall j :: 0 <= j < 64 ==> keyBlock[j] == if j < i then source[j] else 0
    {
      keyBlock[i] := source[i];
    }
  }

  method HmacMd5(key: seq<byte>, data: seq<byte>) returns (mac: seq<byte>)
    ensures mac == Hmac(key, data)
  {
    hide Digest, KeyBlock, XorByte;
    var keyBlock := FillKey(key);
    var oKeyPad, iKeyPad := new byte[64], new byte[64];
    for i := 0 to 64
      invariant keyBlock[..] == KeyBlock(key)
      invariant forall j :: 0 <= j < i ==>
        oKeyPad[j] == XorByte(keyBlock[j], 0x5c) && iKeyPad[j] == XorByte(keyBlock[j], 0x36)
    {
      oKeyPad[i], iKeyPad[i] := XorByte(keyBlock[i], 0x5c), XorByte(keyBlock[i], 0x36);
    }
    assert oKeyPad[..] == Xored(KeyBlock(key), 0x5c) && iKeyPad[..] == Xored(KeyBlock(key), 0x36);
    var innerHash := Md5Digest(iKeyPad[..] + data);
    mac := Md5Digest(oKeyPad[..] + innerHash);
  }
}
