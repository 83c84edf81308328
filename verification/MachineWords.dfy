/** 64-bit words and the operations that compiled code leaves to its host. */
module MachineWords {
  const MIN_I64: int := -0x8000_0000_0000_0000

  const MAX_I64: int := 0x7fff_ffff_ffff_ffff

  newtype i64 = x: int | MIN_I64 <= x <= MAX_I64

  // A float register holds a bit pattern that is never taken apart here.
  newtype F64 = x: int | 0 <= x < 0x1_0000_0000_0000_0000

  datatype Val = I(i: i64) | F(f: F64)

  datatype BinaryOp = Add | Sub | Mul | Div | Mod | BitAnd | BitOr | BitXor | Shl | Shr | Eq | Ne | Lt | Le | Gt | Ge

  datatype UnaryOp = Neg | Not | BitNot

  predicate IsCompare(op: BinaryOp)
  {
    op in {Eq, Ne, Lt, Le, Gt, Ge}
  }

  // The representative of x in the signed 64-bit range.
  function Wrap(x: int): i64
  {
    var m := x % 0x1_0000_0000_0000_0000;
    (if m > MAX_I64 then m - 0x1_0000_0000_0000_0000 else m) as i64
  }

  function Flag(b: bool): i64
  {
    if b then 1 else 0
  }

  // Division that truncates toward zero.
  function Quotient(l: int, r: int): int
    requires r != 0
  {
    if l >= 0 then (if r > 0 then l / r else -(l / -r))
    else (if r > 0 then -(-l / r) else -l / -r)
  }

  /** What surrounds compiled code: floating point, bit operations, addresses, and calls that
      read and change a world of type W. */
  datatype Host<!W> = Host(
    fop: (BinaryOp, F64, F64) -> F64,
    fcmp: (BinaryOp, F64, F64) -> bool,
    funary: (UnaryOp, F64) -> F64,
    bits: (BinaryOp, i64, i64) -> i64,
    bnot: i64 -> i64,
    stringValue: string -> i64,
    functionAddress: string -> i64,
    loadGlobal: (string, W) -> i64,
    storeGlobal: (string, i64, W) -> W,
    printWord: (i64, W) -> W,
    callWord: (string, seq<i64>, W) -> (i64, W),
    callFloat: (string, seq<i64>, W) -> (F64, W),
    callVoid: (string, seq<i64>, W) -> W)
}
