/** Values boxed in one word (crates/eronom-core/src/value.rs:4-256, 397-451).  A word below the
    tags is a float by its bits; above them its high 16 bits tell the kind and the low 48 hold a
    pointer, or up to six bytes of a string.  Floats stay bits: how they compare is a parameter. */
module Boxing {
  import opened Options

  const SPAN := 0x1_0000_0000_0000_0000

  type byte = x: int | 0 <= x < 256

  type u64 = x: int | 0 <= x < SPAN

  // What a string is, in UTF-8.
  type Utf8 = seq<byte>

  const UNIT: int := 0x1_0000_0000_0000   // the weight of the high 16 bits

  const TAG_NUMBER_MASK: u64 := 0xffe8_0000_0000_0000

  const TAG_INLINE_STR_BASE: u64 := 0xffe8_0000_0000_0000

  const TAG_INLINE_STR_MAX: u64 := 0xffef_ffff_ffff_ffff

  const TAG_METHOD_FILE: u64 := 0xfff0_0000_0000_0000

  const TAG_NULL: u64 := 0xfff1_0000_0000_0000

  const TAG_FALSE: u64 := 0xfff2_0000_0000_0000

  const TAG_TRUE: u64 := 0xfff3_0000_0000_0000

  const TAG_STRING: u64 := 0xfff4_0000_0000_0000

  const TAG_ARRAY: u64 := 0xfff5_0000_0000_0000

  const TAG_OBJECT: u64 := 0xfff6_0000_0000_0000

  const TAG_FUNCTION: u64 := 0xfff7_0000_0000_0000

  const TAG_NATIVE: u64 := 0xfff8_0000_0000_0000

  const TAG_METHOD_PUSH: u64 := 0xfff9_0000_0000_0000

  const TAG_METHOD_POP: u64 := 0xfffa_0000_0000_0000

  const TAG_METHOD_JSON: u64 := 0xfffb_0000_0000_0000

  const TAG_METHOD_TEXT: u64 := 0xfffc_0000_0000_0000

  const TAG_METHOD_SEND_JSON: u64 := 0xfffd_0000_0000_0000

  const TAG_PROMISE: u64 := 0xfffe_0000_0000_0000

  const TAG_METHOD_RESOLVE: u64 := 0xffff_0000_0000_0000

  const QUIET_NAN: u64 := 0x7ff8_0000_0000_0000

  function HighPart(w: u64): u64 { w - w % UNIT }

  function LowPart(w: u64): (p: u64)
    ensures p < UNIT
  {
    w % UNIT
  }

  // ---------------------------------------------------------------- kinds

  datatype Kind =
    | Number | Null | Boolean | String | Array | Object | Function | Native | Push | Pop
    | Json | Text | SendJson | Resolve | File | Promise

  predicate IsInlineString(w: u64) { TAG_INLINE_STR_BASE <= w <= TAG_INLINE_STR_MAX }

  predicate IsHeapString(w: u64) { HighPart(w) == TAG_STRING }

  // The predicates is_number, is_null, and so on.
  predicate Is(k: Kind, w: u64)
  {
    match k
    case Number => w < TAG_NUMBER_MASK
    case Null => w == TAG_NULL
    case Boolean => HighPart(w) == TAG_FALSE || HighPart(w) == TAG_TRUE
    case String => IsInlineString(w) || IsHeapString(w)
    case Array => HighPart(w) == TAG_ARRAY
    case Object => HighPart(w) == TAG_OBJECT
    case Function => HighPart(w) == TAG_FUNCTION
    case Native => HighPart(w) == TAG_NATIVE
    case Push => HighPart(w) == TAG_METHOD_PUSH
    case Pop => HighPart(w) == TAG_METHOD_POP
    case Json => HighPart(w) == TAG_METHOD_JSON
    case Text => HighPart(w) == TAG_METHOD_TEXT
    case SendJson => HighPart(w) == TAG_METHOD_SEND_JSON
    case Resolve => HighPart(w) == TAG_METHOD_RESOLVE
    case File => HighPart(w) == TAG_METHOD_FILE
    case Promise => HighPart(w) == TAG_PROMISE
  }

  // The tag of the kinds that hold a pointer.
  function TagOf(k: Kind): u64
    requires !k.Number? && !k.Null? && !k.Boolean?
  {
    match k
    case String => TAG_STRING
    case Array => TAG_ARRAY
    case Object => TAG_OBJECT
    case Function => TAG_FUNCTION
    case Native => TAG_NATIVE
    case Push => TAG_METHOD_PUSH
    case Pop => TAG_METHOD_POP
    case Json => TAG_METHOD_JSON
    case Text => TAG_METHOD_TEXT
    case SendJson => TAG_METHOD_SEND_JSON
    case Resolve => TAG_METHOD_RESOLVE
    case File => TAG_METHOD_FILE
    case Promise => TAG_PROMISE
  }

  // The kind that a word has by its place among the tags.
  function KindOf(w: u64): Kind
  {
    var t := w / UNIT;
    if w < TAG_NUMBER_MASK then Number
    else if t <= 0xffef then String
    else if t == 0xfff0 then File
    else if t == 0xfff1 then Null
    else if t <= 0xfff3 then Boolean
    else if t == 0xfff4 then String
    else if t == 0xfff5 then Array
    else if t == 0xfff6 then Object
    else if t == 0xfff7 then Function
    else if t == 0xfff8 then Native
    else if t == 0xfff9 then Push
    else if t == 0xfffa then Pop
    else if t == 0xfffb then Json
    else if t == 0xfffc then Text
    else if t == 0xfffd then SendJson
    else if t == 0xfffe then Promise
    else Resolve
  }

  // No word is of two kinds, and only one family is of none: null's tag with something behind it.
  lemma OneKind(w: u64, k: Kind)
    ensures Is(k, w) <==> k == KindOf(w) && !(HighPart(w) == TAG_NULL && w != TAG_NULL)
  {
    assert w == UNIT * (w / UNIT) + w % UNIT;
  }

  // ---------------------------------------------------------------- bytes of a word

  function Pow256(n: nat): (p: nat)
    ensures p >= 1
  {
    if n == 0 then 1 else 256 * Pow256(n - 1)
  }

  // Bytes as a number, the low-order one first, and back.
  function LowBytes(s: Utf8): (n: nat)
    ensures n < Pow256(|s|)
  {
    if s == [] then 0 else s[0] + 256 * LowBytes(s[1..])
  }

  function BytesOf(x: nat, n: nat): (s: Utf8)
    ensures |s| == n
    decreases n
  {
    if n == 0 then [] else [x % 256] + BytesOf(x / 256, n - 1)
  }

  lemma Regroup(a: nat, b: nat, c: nat)
    ensures a * b * c == a * (b * c)
  {
  }

  lemma ByteFirst(b: byte, x: nat)
    ensures (b + 256 * x) % 256 == b && (b + 256 * x) / 256 == x
  {
  }

  lemma {:induction false} BytesBack(s: Utf8, r: nat)
    ensures BytesOf(LowBytes(s) + Pow256(|s|) * r, |s|) == s
    decreases |s|
  {
    if s != [] {
      BytesBack(s[1..], r);
      var x := LowBytes(s[1..]) + Pow256(|s| - 1) * r;
      Regroup(256, Pow256(|s| - 1), r);
      assert LowBytes(s) + Pow256(|s|) * r == s[0] + 256 * x;
      ByteFirst(s[0], x);
      assert s == [s[0]] + s[1..];
    }
  }

  lemma {:induction false} Pow256Adds(a: nat, b: nat)
    ensures Pow256(a + b) == Pow256(a) * Pow256(b)
    decreases a
  {
    if a > 0 {
      Pow256Adds(a - 1, b);
    }
  }

  lemma Swap(a: nat, b: nat, c: nat)
    ensures a * (b * c) == b * (a * c)
  {
  }

  lemma {:induction false} LowBytesEnd(s: Utf8, b: byte)
    ensures LowBytes(s + [b]) == LowBytes(s) + b * Pow256(|s|)
    decreases |s|
  {
    if s == [] {
      assert s + [b] == [b];
    } else {
      assert (s + [b])[1..] == s[1..] + [b];
      LowBytesEnd(s[1..], b);
      Swap(256, b, Pow256(|s| - 1));
    }
  }

  lemma Grows(a: nat, b: nat)
    requires b >= 1
    ensures a <= a * b
  {
  }

  lemma SixBytes(s: Utf8)
    requires |s| <= 6
    ensures LowBytes(s) < UNIT && UNIT == Pow256(|s|) * Pow256(6 - |s|)
  {
    Pow256Adds(|s|, 6 - |s|);
    assert Pow256(6) == UNIT;
    Grows(Pow256(|s|), Pow256(6 - |s|));
  }

  // ---------------------------------------------------------------- contents

  datatype Content =
    | NullContent
    | Flag(b: bool)
    | Float(bits: u64)
    | Inline(text: Utf8)
    | Pointer(kind: Kind, address: nat)

  // Strings on the heap by their address, which bytes are UTF-8, and how floats compare.
  datatype Memory = Memory(strings: map<nat, Utf8>, isUtf8: Utf8 -> bool, floatEq: (u64, u64) -> bool)

  predicate Storable(m: Memory, c: Content)
  {
    match c
    case Inline(s) => |s| <= 6 && m.isUtf8(s)
    case Pointer(k, p) => !k.Number? && !k.Null? && !k.Boolean? && p < UNIT && (k.String? ==> p in m.strings)
    case _ => true
  }

  // Floats whose bits lie among the tags become one NaN.
  function Canonical(bits: u64): u64
  {
    if bits >= TAG_NUMBER_MASK then QUIET_NAN else bits
  }

  function Boxed(m: Memory, c: Content): u64
    requires Storable(m, c)
  {
    match c
    case NullContent => TAG_NULL
    case Flag(b) => TAG_FALSE + (if b then UNIT else 0)
    case Float(bits) => Canonical(bits)
    case Inline(s) => SixBytes(s); TAG_INLINE_STR_BASE + |s| * UNIT + LowBytes(s)
    case Pointer(k, p) => TagOf(k) + p % UNIT
  }

  predicate IsTruthy(w: u64) { w != TAG_FALSE && w != TAG_NULL }

  function AsBoolean(w: u64): bool { w == TAG_TRUE }

  function ContentKind(c: Content): Kind
  {
    match c
    case NullContent => Null
    case Flag(_) => Boolean
    case Float(_) => Number
    case Inline(_) => String
    case Pointer(k, _) => k
  }

  // as_str: an inline string is read from the word's own bytes.
  function AsStr(m: Memory, w: u64): Option<Utf8>
  {
    if IsInlineString(w) then
      var len := (w / UNIT) % 8;
      if len <= 6 && m.isUtf8(BytesOf(w, len)) then Some(BytesOf(w, len)) else None
    else if IsHeapString(w) && LowPart(w) in m.strings then Some(m.strings[LowPart(w)])
    else None
  }

  lemma HighAndLow(high: nat, low: nat)
    requires low < UNIT
    ensures (high * UNIT + low) / UNIT == high
  {
  }

  lemma Exchange(a: nat, b: nat, c: nat)
    ensures a * (b * c) == b * (c * a)
  {
  }

  // The high part does not reach into the bytes.
  lemma ReadBack(s: Utf8, high: nat)
    requires |s| <= 6
    ensures BytesOf(high * UNIT + LowBytes(s), |s|) == s
  {
    SixBytes(s);
    var p, q := Pow256(|s|), Pow256(6 - |s|);
    Exchange(high, p, q);
    BytesBack(s, q * high);
  }

  lemma InlineParts(s: Utf8)
    requires |s| <= 6
    ensures
      var w := TAG_INLINE_STR_BASE + |s| * UNIT + LowBytes(s);
      && TAG_INLINE_STR_BASE <= w <= TAG_INLINE_STR_MAX
      && (w / UNIT) % 8 == |s|
      && BytesOf(w, |s|) == s
  {
    hide BytesOf, LowBytes, Pow256;
    SixBytes(s);
    var high := 0xffe8 + |s|;
    HighAndLow(high, LowBytes(s));
    ReadBack(s, high);
    assert TAG_INLINE_STR_BASE + |s| * UNIT + LowBytes(s) == high * UNIT + LowBytes(s);
    assert high % 8 == |s|;
  }

  lemma PointerParts(k: Kind, p: nat)
    requires !k.Number? && !k.Null? && !k.Boolean? && p < UNIT
    ensures HighPart(TagOf(k) + p) == TagOf(k) && LowPart(TagOf(k) + p) == p && KindOf(TagOf(k) + p) == k
    ensures !IsInlineString(TagOf(k) + p) && TagOf(k) != TAG_NULL
  {
    var w := TagOf(k) + p;
    var t := TagOf(k) / UNIT;
    assert TagOf(k) == UNIT * t;
    assert w / UNIT == t;
  }

  // A boxed content has the predicate of its kind, and no other.
  lemma BoxedKind(m: Memory, c: Content, k: Kind)
    requires Storable(m, c)
    ensures Is(k, Boxed(m, c)) <==> k == ContentKind(c)
  {
    var w := Boxed(m, c);
    OneKind(w, k);
    match c
    case Inline(s) =>
      InlineParts(s);
      assert HighPart(w) <= w;
    case Pointer(kind, p) => PointerParts(kind, p);
    case _ =>
  }

  // Only null and false are not true, and only true is read as a true boolean.
  lemma TruthExact(m: Memory, c: Content)
    requires Storable(m, c)
    ensures IsTruthy(Boxed(m, c)) <==> c != NullContent && c != Flag(false)
    ensures AsBoolean(Boxed(m, c)) <==> c == Flag(true)
  {
    var w := Boxed(m, c);
    BoxedKind(m, c, Null);
    BoxedKind(m, c, Boolean);
    OneKind(w, Null);
  }

  // All bits of the exponent, and some of the fraction.
  predicate IsNan(bits: u64)
  {
    (bits / 0x10_0000_0000_0000) % 0x800 == 0x7ff && bits % 0x10_0000_0000_0000 != 0
  }

  // A float comes back as it went in exactly when its bits lie below the tags; minus infinity and
  // the most negative finite floats do not.
  lemma FloatExact(m: Memory, bits: u64)
    ensures Boxed(m, Float(bits)) == bits <==> bits < TAG_NUMBER_MASK
    ensures !Is(Number, bits) ==> Boxed(m, Float(bits)) == QUIET_NAN && IsNan(QUIET_NAN)
  {
  }

  const MINUS_INFINITY: u64 := 0xfff0_0000_0000_0000

  // Boxed without the check, minus infinity is taken for a method.
  lemma UncheckedInfinity(m: Memory)
    ensures Boxed(m, Float(MINUS_INFINITY)) == QUIET_NAN
    ensures forall k :: Is(k, MINUS_INFINITY) <==> k == File
  {
    forall k ensures Is(k, MINUS_INFINITY) <==> k == File {
      OneKind(MINUS_INFINITY, k);
    }
  }

  // The text that a content stands for.
  function TextOf(m: Memory, c: Content): Option<Utf8>
    requires Storable(m, c)
  {
    match c
    case Inline(s) => Some(s)
    case Pointer(String, p) => Some(m.strings[p])
    case _ => None
  }

  lemma AsStrExact(m: Memory, c: Content)
    requires Storable(m, c)
    ensures AsStr(m, Boxed(m, c)) == TextOf(m, c)
  {
    var w := Boxed(m, c);
    match c
    case Inline(s) => InlineParts(s);
    case Pointer(k, p) =>
      PointerParts(k, p);
      assert k.String? <==> IsHeapString(w) by {
        OneKind(w, String);
      }
    case _ =>
      BoxedKind(m, c, String);
  }

  // ---------------------------------------------------------------- equality

  function OrEmpty(o: Option<Utf8>): Utf8 { if o.Some? then o.value else [] }

  predicate Equal(m: Memory, v: u64, w: u64)
  {
    if v == w then true
    else if Is(Number, v) && Is(Number, w) then m.floatEq(v, w)
    else if Is(String, v) && Is(String, w) then
      if IsInlineString(v) && IsInlineString(w) then false
      else OrEmpty(AsStr(m, v)) == OrEmpty(AsStr(m, w))
    else false
  }

  predicate SameContent(m: Memory, c: Content, d: Content)
    requires Storable(m, c) && Storable(m, d)
  {
    if c.Float? && d.Float? then
      Canonical(c.bits) == Canonical(d.bits) || m.floatEq(Canonical(c.bits), Canonical(d.bits))
    else if TextOf(m, c).Some? && TextOf(m, d).Some? then TextOf(m, c) == TextOf(m, d)
    else c == d
  }

  lemma PlaceOf(m: Memory, c: Content)
    requires Storable(m, c)
    ensures IsInlineString(Boxed(m, c)) <==> c.Inline?
    ensures c.Float? ==> Boxed(m, c) == Canonical(c.bits)
  {
    match c
    case Inline(s) => InlineParts(s);
    case Pointer(k, p) => PointerParts(k, p);
    case _ =>
  }

  // A word determines its content: what is not a float comes back.
  lemma BoxedInjective(m: Memory, c: Content, d: Content)
    requires Storable(m, c) && Storable(m, d) && Boxed(m, c) == Boxed(m, d)
    ensures if c.Float? then d.Float? && Canonical(c.bits) == Canonical(d.bits) else c == d
  {
    BoxedKind(m, c, ContentKind(c));
    BoxedKind(m, d, ContentKind(c));
    PlaceOf(m, c);
    PlaceOf(m, d);
    if c.Inline? {
      hide Boxed, ContentKind, Is, KindOf;
      AsStrExact(m, c);
      AsStrExact(m, d);
    } else if c.Pointer? {
      hide Is, KindOf;
      PointerParts(c.kind, c.address);
      PointerParts(d.kind, d.address);
    } else {
      hide Is, KindOf;
    }
  }

  // Boxed values are equal exactly when their contents are, wherever their strings are kept.
  lemma EqualExact(m: Memory, c: Content, d: Content)
    requires Storable(m, c) && Storable(m, d)
    ensures Equal(m, Boxed(m, c), Boxed(m, d)) <==> SameContent(m, c, d)
  {
    hide Boxed, AsStr;
    var v, w := Boxed(m, c), Boxed(m, d);
    BoxedKind(m, c, Number);
    BoxedKind(m, d, Number);
    BoxedKind(m, c, String);
    BoxedKind(m, d, String);
    AsStrExact(m, c);
    AsStrExact(m, d);
    if v == w {
      BoxedInjective(m, c, d);
    }
    PlaceOf(m, c);
    PlaceOf(m, d);
  }

  // ---------------------------------------------------------------- keys of maps

  // What a key gives to a hasher.
  datatype Feed = OfText(text: Utf8) | OfBits(bits: u64)

  predicate KeyEqual(m: Memory, v: u64, w: u64)
  {
    v == w || (Is(String, v) && Is(String, w) && OrEmpty(AsStr(m, v)) == OrEmpty(AsStr(m, w)))
  }

  function Fed(m: Memory, w: u64): Feed
  {
    if Is(String, w) && AsStr(m, w).Some? then OfText(AsStr(m, w).value) else OfBits(w)
  }

  // Equal keys are hashed alike exactly when they are one word or their strings can be read, as
  // those of boxed contents can; and keys hashed from the same input are equal.
  lemma KeysHashAlike(m: Memory, v: u64, w: u64)
    ensures KeyEqual(m, v, w) ==> (Fed(m, v) == Fed(m, w) <==> v == w || (AsStr(m, v).Some? && AsStr(m, w).Some?))
    ensures Fed(m, v) == Fed(m, w) ==> KeyEqual(m, v, w)
  {
  }

  // Two keys that are equal and hashed differently: inline strings of a length that no string has.
  lemma KeysApart(m: Memory)
    ensures var v, w: u64 := 0xffef_0000_0000_0000, 0xffef_0000_0000_0001;
      KeyEqual(m, v, w) && Fed(m, v) == OfBits(v) && Fed(m, w) == OfBits(w) && Fed(m, v) != Fed(m, w)
  {
    var v, w: u64 := 0xffef_0000_0000_0000, 0xffef_0000_0000_0001;
    assert IsInlineString(v) && IsInlineString(w);
    assert v / UNIT == 0xffef && w / UNIT == 0xffef;
    assert AsStr(m, v) == None && AsStr(m, w) == None;
  }

  lemma BoxedKeys(m: Memory, c: Content, d: Content)
    requires Storable(m, c) && Storable(m, d)
    ensures KeyEqual(m, Boxed(m, c), Boxed(m, d)) <==> Fed(m, Boxed(m, c)) == Fed(m, Boxed(m, d))
  {
    hide Boxed, AsStr;
    KeysHashAlike(m, Boxed(m, c), Boxed(m, d));
    AsStrExact(m, c);
    AsStrExact(m, d);
    BoxedKind(m, c, String);
    BoxedKind(m, d, String);
  }

  // ---------------------------------------------------------------- the loops

  // The bytes go to places that are still zero.
  method InlineString(m: Memory, s: Utf8) returns (r: Option<u64>)
    requires m.isUtf8(s)
    ensures r == if |s| <= 6 then Some(Boxed(m, Inline(s))) else None
  {
    var len := |s|;
    if len > 6 {
      return None;
    }
    SixBytes(s);
    var bits: nat := TAG_INLINE_STR_BASE + len * UNIT;
    assert s[..0] == [];
    for i := 0 to len
      invariant bits == TAG_INLINE_STR_BASE + len * UNIT + LowBytes(s[..i])
    {
      LowBytesEnd(s[..i], s[i]);
      assert s[..i] + [s[i]] == s[..i + 1];
      bits := bits + s[i] * Pow256(i);
    }
    assert s[..len] == s;
    r := Some(bits);
  }

  function Pow10(n: nat): (p: nat)
    ensures p >= 1
  {
    if n == 0 then 1 else 10 * Pow10(n - 1)
  }

  function Digit(d: nat): char
    requires d < 10
  {
    '0' + d as char
  }

  function Digits(n: nat): string
  {
    if n == 0 then "" else Digits(n / 10) + [Digit(n % 10)]
  }

  function Decimal(n: nat): string
  {
    if n == 0 then "0" else Digits(n)
  }

  predicate IsDigit(c: char) { '0' <= c <= '9' }

  function ValueOf(t: string): nat
    requires forall i :: 0 <= i < |t| ==> IsDigit(t[i])
  {
    if t == "" then 0 else
    assert IsDigit(t[|t| - 1]);
    10 * ValueOf(t[..|t| - 1]) + (t[|t| - 1] - '0') as nat
  }

  // A numeral without needless zeros in front.
  predicate Numeral(t: string)
  {
    t != "" && (forall i :: 0 <= i < |t| ==> IsDigit(t[i])) && (|t| > 1 ==> t[0] != '0')
  }

  lemma {:induction false} DigitsLength(n: nat, k: nat)
    requires n < Pow10(k)
    ensures |Digits(n)| <= k
    decreases k
  {
    if n > 0 {
      DigitsLength(n / 10, k - 1);
    }
  }

  lemma {:induction false} DigitsNumeral(n: nat)
    requires n > 0
    ensures Numeral(Digits(n)) && Digits(n)[0] != '0' && ValueOf(Digits(n)) == n
  {
    var t := Digits(n);
    if n / 10 > 0 {
      DigitsNumeral(n / 10);
      assert t[0] == Digits(n / 10)[0];
    }
    assert t[..|t| - 1] == Digits(n / 10);
  }

  lemma {:induction false} NumeralDigits(t: string)
    requires Numeral(t) && t[0] != '0'
    ensures ValueOf(t) > 0 && t == Digits(ValueOf(t))
    decreases |t|
  {
    var init, last := t[..|t| - 1], t[|t| - 1];
    if init != "" {
      NumeralDigits(init);
    }
    assert t == init + [last];
    assert Digit((last - '0') as nat) == last;
    assert ValueOf(t) / 10 == ValueOf(init) && ValueOf(t) % 10 == (last - '0') as nat;
  }

  // The decimal of a number is the one numeral that has its value.
  lemma DecimalExact(n: nat, t: string)
    ensures t == Decimal(n) <==> Numeral(t) && ValueOf(t) == n
  {
    if n > 0 {
      DigitsNumeral(n);
    }
    if Numeral(t) {
      if t[0] == '0' {
        assert t == "0";
        assert t[..0] == "";
      } else {
        NumeralDigits(t);
      }
    }
  }

  lemma {:induction false} Pow10Adds(a: nat, b: nat)
    ensures Pow10(a + b) == Pow10(a) * Pow10(b)
    decreases a
  {
    if a > 0 {
      Pow10Adds(a - 1, b);
    }
  }

  lemma TwentyDigits()
    ensures SPAN <= Pow10(20)
  {
    assert Pow10(5) == 10_0000;
    Pow10Adds(5, 5);
    Pow10Adds(10, 10);
  }

  lemma LastDigit(n: nat)
    requires n > 0
    ensures Digits(n) == Digits(n / 10) + [Digit(n % 10)]
  {
  }

  lemma NoDigits()
    ensures Digits(0) == ""
  {
  }

  // The digits are written from the end of a buffer of twenty, which no number of 64 bits overruns.
  method PushPositiveInteger(s: string, m: u64) returns (t: string)
    ensures t == s + Decimal(m)
  {
    if m == 0 {
      return s + "0";
    }
    hide Digits, Pow10, Digit;
    var n: nat := m;
    var buf := new char[20](_ => '0');
    var idx := 20;
    TwentyDigits();
    DigitsLength(m, 20);
    while n > 0
      invariant 0 <= idx <= 20 && |Digits(n)| <= idx
      invariant Digits(n) + buf[idx..] == Digits(m)
      decreases n
    {
      ghost var was := buf[idx..];
      LastDigit(n);
      idx := idx - 1;
      buf[idx] := Digit(n % 10);
      assert buf[idx..] == [Digit(n % 10)] + was;
      n := n / 10;
    }
    NoDigits();
    t := s + buf[idx..];
  }
}
