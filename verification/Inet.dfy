/** Internet addresses as text (deps/libuv/src/inet.c): the printers and parsers of libuv, the
    text forms of section 2.2 of RFC 4291, and the proof that one inverts the other. */
module Inet {
  import opened Options

  // A failed print or parse: UV_ENOSPC or UV_EINVAL.
  datatype Printed = Text(text: string) | NoSpace

  type byte = x: int | 0 <= x < 256

  type word = x: int | 0 <= x < 65536

  // A C string holds no terminator before its end.
  type CString = s: string | forall i :: 0 <= i < |s| ==> s[i] != '\0'

  const ADDRSTRLEN4: nat := 16

  const ADDRSTRLEN6: nat := 46

  // ---------------------------------------------------------------- numerals

  const LOWER: string := "0123456789abcdef"

  const UPPER: string := "0123456789ABCDEF"

  function Digit(d: nat): char
    requires d < 16
  {
    LOWER[d]
  }

  // strchr on the two digit tables.
  function HexValue(c: char): Option<nat>
  {
    if '0' <= c <= '9' then Some(c as nat - '0' as nat)
    else if 'a' <= c <= 'f' then Some(c as nat - 'a' as nat + 10)
    else if 'A' <= c <= 'F' then Some(c as nat - 'A' as nat + 10)
    else None
  }

  function DecValue(c: char): Option<nat>
  {
    if '0' <= c <= '9' then Some(c as nat - '0' as nat) else None
  }

  // A digit may be written in either case.
  lemma HexValueExact(c: char, d: nat)
    requires d < 16
    ensures HexValue(c) == Some(d) <==> c == "0123456789abcdef"[d] || c == "0123456789ABCDEF"[d]
  {
  }

  predicate IsLowerHex(c: char)
  {
    '0' <= c <= '9' || 'a' <= c <= 'f'
  }

  lemma TablesAgree(d: nat)
    requires d < 16
    ensures HexValue(LOWER[d]) == Some(d) && HexValue(UPPER[d]) == Some(d)
    ensures d < 10 ==> DecValue(LOWER[d]) == Some(d)
    ensures IsLowerHex(LOWER[d])
  {
  }

  // printf's %u and %x.
  function Decimal(n: nat): string
  {
    if n < 10 then [Digit(n)] else Decimal(n / 10) + [Digit(n % 10)]
  }

  function Hex(n: nat): string
  {
    if n < 16 then [Digit(n)] else Hex(n / 16) + [Digit(n % 16)]
  }

  predicate HexText(s: string)
  {
    forall i :: 0 <= i < |s| ==> HexValue(s[i]).Some?
  }

  function NumberOf(s: string): nat
    requires HexText(s)
  {
    if s == "" then 0 else 16 * NumberOf(s[..|s| - 1]) + HexValue(s[|s| - 1]).value
  }

  predicate IsGroup(s: string)
  {
    1 <= |s| <= 4 && HexText(s)
  }

  // Section 4.1 and 4.3 of RFC 5952: no leading zeros, lower case.
  predicate Canonical(s: string)
  {
    IsGroup(s) && (s[0] == '0' ==> |s| == 1) && forall i :: 0 <= i < |s| ==> IsLowerHex(s[i])
  }

  lemma {:induction false} HexShort(n: nat, k: nat)
    requires n < 16 || (k > 1 && (k == 2 ==> n < 256) && (k == 3 ==> n < 4096) && (k == 4 ==> n < 65536))
    requires 1 <= k <= 4
    ensures 1 <= |Hex(n)| <= k && HexText(Hex(n)) && forall i :: 0 <= i < |Hex(n)| ==> IsLowerHex(Hex(n)[i])
    ensures NumberOf(Hex(n)) == n && (Hex(n)[0] == '0' ==> n == 0)
    decreases k
  {
    hide HexValue;
    TablesAgree(n % 16);
    if n >= 16 {
      HexShort(n / 16, k - 1);
      assert Hex(n)[..|Hex(n)| - 1] == Hex(n / 16);
    }
  }

  lemma HexCanonical(w: word)
    ensures Canonical(Hex(w)) && NumberOf(Hex(w)) == w
  {
    HexShort(w, 4);
  }

  // ---------------------------------------------------------------- IPv4

  // Numbers joined by dots; the IPv4address of section 3.2.2 of RFC 3986 has four of them.
  function Dotted(b: seq<byte>): string
  {
    if b == [] then "" else if |b| == 1 then Decimal(b[0]) else Decimal(b[0]) + "." + Dotted(b[1..])
  }

  // What is left of the text, the octets that are complete, and the one being read.
  function Scan4(rest: string, done: seq<byte>, cur: Option<byte>): Option<seq<byte>>
    decreases |rest|
  {
    if rest == "" then
      if |done| + (if cur.Some? then 1 else 0) < 4 then None else Some(done + (if cur.Some? then [cur.value] else []))
    else match DecValue(rest[0])
      case Some(d) =>
        var nw := (if cur.Some? then cur.value else 0) * 10 + d;
        if cur.Some? && cur.value == 0 then None
        else if nw > 255 then None
        else if cur.None? && |done| + 1 > 4 then None
        else Scan4(rest[1..], done, Some(nw))
      case None =>
        if rest[0] == '.' && cur.Some? then
          if |done| + 1 == 4 then None else Scan4(rest[1..], done + [cur.value], None)
        else None
  }

  lemma Scan4Digit(c: char, rest: string, done: seq<byte>, cur: Option<byte>, v: byte)
    requires DecValue(c).Some? && |done| < 4 && cur != Some(0)
    requires v == (if cur.Some? then cur.value else 0) * 10 + DecValue(c).value
    ensures Scan4([c] + rest, done, cur) == Scan4(rest, done, Some(v))
  {
    var s := [c] + rest;
    assert s[0] == c && s[1..] == rest;
  }

  // Reading a printed octet.
  lemma {:induction false} Scan4Octet(v: byte, rest: string, done: seq<byte>)
    requires |done| < 4
    ensures Scan4(Decimal(v) + rest, done, None) == Scan4(rest, done, Some(v))
    decreases v
  {
    TablesAgree(v % 10);
    var last := [Digit(v % 10)];
    if v < 10 {
      Scan4Digit(Digit(v), rest, done, None, v);
    } else {
      assert Decimal(v) + rest == Decimal(v / 10) + (last + rest);
      Scan4Octet(v / 10, last + rest, done);
      Scan4Digit(Digit(v % 10), rest, done, Some(v / 10), v);
    }
  }

  // The parser inverts the printer ...
  lemma {:induction false} Scan4Complete(b: seq<byte>, k: nat)
    requires |b| == 4 && k < 4
    ensures Scan4(Dotted(b[k..]), b[..k], None) == Some(b)
    decreases 4 - k
  {
    var v := b[k];
    assert b[..k] + [v] == b[..k + 1] && b[k..][1..] == b[k + 1..];
    if k == 3 {
      assert Decimal(v) + "" == Decimal(v) && b[..4] == b;
      Scan4Octet(v, "", b[..k]);
    } else {
      var rest := "." + Dotted(b[k + 1..]);
      assert Dotted(b[k..]) == Decimal(v) + rest;
      Scan4Octet(v, rest, b[..k]);
      assert rest[0] == '.' && rest[1..] == Dotted(b[k + 1..]);
      Scan4Complete(b, k + 1);
    }
  }

  function CurText(cur: Option<byte>): string
  {
    if cur.Some? then Decimal(cur.value) else ""
  }

  lemma CurTextOf(v: byte)
    ensures CurText(Some(v)) == Decimal(v) && CurText(None) == ""
  {
  }

  lemma LastOctet(done: seq<byte>, cur: Option<byte>)
    requires |done| <= 3 && Scan4("", done, cur).Some?
    ensures
      var b := Scan4("", done, cur).value;
      |b| == 4 && b[..|done|] == done && CurText(cur) + "" == Dotted(b[|done|..])
  {
    var b := Scan4("", done, cur).value;
    assert b[|done|..] == [cur.value];
  }

  lemma NextDigit(cur: Option<byte>, c: char)
    requires DecValue(c).Some? && cur != Some(0)
    requires (if cur.Some? then cur.value else 0) * 10 + DecValue(c).value < 256
    ensures CurText(cur) + [c] == Decimal((if cur.Some? then cur.value else 0) * 10 + DecValue(c).value)
  {
    var n, d := if cur.Some? then cur.value else 0, DecValue(c).value;
    assert Digit(d) == c;
    assert (n * 10 + d) / 10 == n && (n * 10 + d) % 10 == d;
    hide DecValue, Digit;
    assert Decimal(n * 10 + d) == if n == 0 then [Digit(d)] else Decimal(n) + [Digit(d)];
  }

  // ... and accepts nothing else.
  lemma {:induction false} Scan4Sound(rest: string, done: seq<byte>, cur: Option<byte>)
    requires |done| <= 4 && (|done| == 4 ==> cur.None? && rest != "")
    requires Scan4(rest, done, cur).Some?
    ensures
      var b := Scan4(rest, done, cur).value;
      |b| == 4 && |done| < 4 && b[..|done|] == done && CurText(cur) + rest == Dotted(b[|done|..])
    decreases |rest|
  {
    hide DecValue, CurText, Decimal;
    if rest == "" {
      LastOctet(done, cur);
    } else {
      var b := Scan4(rest, done, cur).value;
      assert rest == [rest[0]] + rest[1..];
      if DecValue(rest[0]).Some? {
        var nw := (if cur.Some? then cur.value else 0) * 10 + DecValue(rest[0]).value;
        Scan4Sound(rest[1..], done, Some(nw));
        assert CurText(cur) + rest == (CurText(cur) + [rest[0]]) + rest[1..];
        NextDigit(cur, rest[0]);
        CurTextOf(nw);
      } else {
        Scan4Sound(rest[1..], done + [cur.value], None);
        CurTextOf(cur.value);
        assert b[|done|] == cur.value by { assert b[..|done| + 1][|done|] == cur.value; }
        assert b[|done|..][1..] == b[|done| + 1..];
        assert b[..|done|] == b[..|done| + 1][..|done|];
        assert CurText(cur) + rest == Decimal(cur.value) + "." + rest[1..];
        assert CurText(None) + rest[1..] == rest[1..];
      }
    }
  }

  // inet_pton4 accepts exactly the texts inet_ntop4 prints, and gives back what was printed.
  lemma Pton4Exact(s: string, b: seq<byte>)
    ensures Scan4(s, [], None) == Some(b) <==> |b| == 4 && s == Dotted(b)
  {
    if Scan4(s, [], None) == Some(b) {
      Scan4Sound(s, [], None);
      assert "" + s == s && b[0..] == b;
    }
    if |b| == 4 && s == Dotted(b) {
      assert b[0..] == b && b[..0] == [];
      Scan4Complete(b, 0);
    }
  }

  lemma {:induction false} DecimalShort(n: nat, k: nat)
    requires 1 <= k <= 3 && (k == 1 ==> n < 10) && (k == 2 ==> n < 100) && (k == 3 ==> n < 1000)
    ensures 1 <= |Decimal(n)| <= k
    decreases k
  {
    if n >= 10 {
      DecimalShort(n / 10, k - 1);
    }
  }

  lemma {:induction false} DottedLength(b: seq<byte>)
    requires b != []
    ensures 2 * |b| - 1 <= |Dotted(b)| <= 4 * |b| - 1
  {
    DecimalShort(b[0], 3);
    if |b| > 1 {
      DottedLength(b[1..]);
    }
  }

  // snprintf into a buffer that has room for the whole text, then a copy that fits.
  method Ntop4(src: seq<byte>, size: nat) returns (r: Printed)
    requires |src| == 4
    ensures r == if |Dotted(src)| < size then Text(Dotted(src)) else NoSpace
  {
    var tmp := Dotted(src);
    DottedLength(src);
    assert |tmp| < ADDRSTRLEN4;
    if |tmp| <= 0 || |tmp| >= size {
      return NoSpace;
    }
    return Text(tmp);
  }

  // The character at i, or the terminator at the end of the string.
  function CharAt(s: CString, i: nat): (c: char)
    requires i <= |s|
    ensures c == '\0' <==> i == |s|
  {
    if i < |s| then s[i] else '\0'
  }

  // One character of the text, and its end.
  lemma Scan4Step(rest: string, done: seq<byte>, cur: Option<byte>)
    requires rest != ""
    ensures
      var d := DecValue(rest[0]);
      var nw := (if cur.Some? then cur.value else 0) * 10 + (if d.Some? then d.value else 0);
      Scan4(rest, done, cur) ==
        if d.Some? then
          if cur == Some(0) || nw > 255 || (cur.None? && |done| >= 4) then None else Scan4(rest[1..], done, Some(nw))
        else if rest[0] == '.' && cur.Some? && |done| != 3 then Scan4(rest[1..], done + [cur.value], None)
        else None
  {
    hide DecValue;
  }

  lemma Scan4Ends(done: seq<byte>, cur: Option<byte>)
    ensures Scan4("", done, cur) ==
      if |done| + (if cur.Some? then 1 else 0) < 4 then None else Some(done + (if cur.Some? then [cur.value] else []))
  {
  }

  // The parser's answer is r: the four octets s is printed from, or none.
  ghost predicate Answers4(s: string, r: Option<seq<byte>>)
  {
    forall b: seq<byte> :: r == Some(b) <==> |b| == 4 && s == Dotted(b)
  }

  lemma Exact4(s: string)
    ensures Answers4(s, Scan4(s, [], None))
    ensures Scan4(s, [], None).Some? ==> |Scan4(s, [], None).value| == 4
  {
    forall b: seq<byte> ensures Scan4(s, [], None) == Some(b) <==> |b| == 4 && s == Dotted(b) {
      Pton4Exact(s, b);
    }
  }

  method Pton4(src: CString) returns (r: Option<seq<byte>>)
    ensures Answers4(src, r) && (r.Some? ==> |r.value| == 4)
    ensures r == Scan4(src, [], None)
  {
    hide Answers4, DecValue, Scan4;
    Exact4(src);
    var sawDigit, octets := false, 0;
    var tmp := new byte[4];
    var tp := 0;
    tmp[tp] := 0;
    var i := 0;
    assert src[0..] == src && tmp[..0] == [];
    while CharAt(src, i) != '\0'
      invariant i <= |src| && tp < 4 && octets == tp + (if sawDigit then 1 else 0) && (!sawDigit ==> tmp[tp] == 0)
      invariant Scan4(src, [], None) == Scan4(src[i..], tmp[..tp], if sawDigit then Some(tmp[tp]) else None)
      decreases |src| - i
    {
      var ch := CharAt(src, i);
      ghost var rest, done := src[i..], tmp[..tp];
      assert rest[0] == ch && rest[1..] == src[i + 1..];
      Scan4Step(rest, done, if sawDigit then Some(tmp[tp]) else None);
      i := i + 1;
      var pch := DecValue(ch);
      if pch.Some? {
        var nw := (tmp[tp] as int) * 10 + pch.value;
        if sawDigit && tmp[tp] == 0 {
          return None;
        }
        if nw > 255 {
          return None;
        }
        tmp[tp] := nw;
        if !sawDigit {
          octets := octets + 1;
          if octets > 4 {
            return None;
          }
          sawDigit := true;
        }
        assert tmp[..tp] == done;
      } else if ch == '.' && sawDigit {
        if octets == 4 {
          return None;
        }
        tp := tp + 1;
        assert tmp[..tp] == done + [tmp[tp - 1]];
        tmp[tp] := 0;
        assert tmp[..tp] == done + [tmp[tp - 1]];
        sawDigit := false;
      } else {
        return None;
      }
    }
    assert src[i..] == "";
    Scan4Ends(tmp[..tp], if sawDigit then Some(tmp[tp]) else None);
    if octets < 4 {
      return None;
    }
    assert tmp[..] == tmp[..3] + [tmp[3]];
    return Some(tmp[..]);
  }

  // ---------------------------------------------------------------- the text forms of IPv6

  // What stands between two colons: a group of hexadecimal digits, or four dotted numbers.
  datatype Piece = Group(digits: string) | Quad(octets: seq<byte>)

  predicate PieceOk(p: Piece)
  {
    match p
    case Group(g) => IsGroup(g)
    case Quad(q) => |q| == 4
  }

  predicate AllGroups(ps: seq<Piece>)
  {
    ps != [] ==> ps[0].Group? && PieceOk(ps[0]) && AllGroups(ps[1..])
  }

  // Dotted numbers may only come last.
  predicate Side(ps: seq<Piece>)
  {
    ps != [] ==> PieceOk(ps[0]) && (ps[0].Quad? ==> |ps| == 1) && Side(ps[1..])
  }

  function PieceText(p: Piece): string
  {
    match p case Group(g) => g case Quad(q) => Dotted(q)
  }

  function TextOf(ps: seq<Piece>): string
  {
    if ps == [] then "" else if |ps| == 1 then PieceText(ps[0]) else PieceText(ps[0]) + ":" + TextOf(ps[1..])
  }

  function WordBytes(n: nat): (b: seq<byte>)
    ensures |b| == 2
  {
    [n / 256 % 256, n % 256]
  }

  function PieceBytes(p: Piece): seq<byte>
    requires PieceOk(p)
  {
    match p case Group(g) => WordBytes(NumberOf(g)) case Quad(q) => q
  }

  function BytesOf(ps: seq<Piece>): seq<byte>
    requires Side(ps)
  {
    if ps == [] then [] else PieceBytes(ps[0]) + BytesOf(ps[1..])
  }

  lemma {:induction false} GroupsAreSide(ps: seq<Piece>)
    requires AllGroups(ps)
    ensures Side(ps)
  {
    if ps != [] {
      GroupsAreSide(ps[1..]);
    }
  }

  function Zeros(n: nat): (z: seq<byte>)
    ensures |z| == n && forall i :: 0 <= i < n ==> z[i] == 0
  {
    seq(n, _ => 0)
  }

  // x:x:x:x:x:x:x:x and x:x:x:x:x:x:d.d.d.d (section 2.2 of RFC 4291, forms 1 and 3).
  predicate WrittenInFull(s: string, a: seq<byte>, ps: seq<Piece>)
  {
    Side(ps) && s == TextOf(ps) && a == BytesOf(ps) && |a| == 16
  }

  // Form 2: "::" stands for one or more groups of zeros.
  predicate WrittenShort(s: string, a: seq<byte>, l: seq<Piece>, r: seq<Piece>)
  {
    && AllGroups(l) && Side(l) && Side(r) && s == TextOf(l) + "::" + TextOf(r)
    && |BytesOf(l)| + |BytesOf(r)| < 16
    && a == BytesOf(l) + Zeros(16 - |BytesOf(l)| - |BytesOf(r)|) + BytesOf(r)
  }

  ghost predicate Denotes(s: string, a: seq<byte>)
  {
    (exists ps :: WrittenInFull(s, a, ps)) || (exists l, r :: WrittenShort(s, a, l, r))
  }

  // ---------------------------------------------------------------- the scanner of inet_pton6

  // The bytes stored, where "::" was met, and the digits of the group being read.
  datatype Scanned = Scanned(bytes: seq<byte>, colon: Option<nat>, tok: string)

  predicate ScannedOk(st: Scanned)
  {
    HexText(st.tok) && |st.tok| <= 4
  }

  function Scan6(rest: string, st: Scanned): (r: Option<Scanned>)
    requires ScannedOk(st)
    ensures r.Some? ==> ScannedOk(r.value)
    decreases |rest|
  {
    if rest == "" then Some(st)
    else if HexValue(rest[0]).Some? then
      if |st.tok| == 4 then None else Scan6(rest[1..], st.(tok := st.tok + [rest[0]]))
    else if rest[0] == ':' then
      if st.tok == "" then
        if st.colon.Some? then None else Scan6(rest[1..], st.(colon := Some(|st.bytes|)))
      else if rest[1..] == "" || |st.bytes| + 2 > 16 then None
      else Scan6(rest[1..], Scanned(st.bytes + WordBytes(NumberOf(st.tok)), st.colon, ""))
    else if rest[0] == '.' && |st.bytes| + 4 <= 16 then
      match Scan4(st.tok + rest, [], None)
      case Some(q) => Some(Scanned(st.bytes + q, st.colon, ""))
      case None => None
    else None
  }

  // The bytes with the last group.
  function Complete(st: Scanned): Option<seq<byte>>
    requires ScannedOk(st)
  {
    if st.tok == "" then Some(st.bytes)
    else if |st.bytes| + 2 > 16 then None
    else Some(st.bytes + WordBytes(NumberOf(st.tok)))
  }

  // The bytes with zeros where "::" was.
  function Spread(b: seq<byte>, colon: Option<nat>): Option<seq<byte>>
  {
    if colon.Some? && colon.value <= |b| then
      if |b| >= 16 then None else Some(b[..colon.value] + Zeros(16 - |b|) + b[colon.value..])
    else if |b| == 16 then Some(b) else None
  }

  function Finish(st: Scanned): Option<seq<byte>>
    requires ScannedOk(st)
  {
    if Complete(st).Some? then Spread(Complete(st).value, st.colon) else None
  }

  const START: Scanned := Scanned([], None, "")

  function Parse6(s: string): Option<seq<byte>>
  {
    var body := if s != "" && s[0] == ':' then s[1..] else s;
    if body != s && (body == "" || body[0] != ':') then None
    else match Scan6(body, START)
      case Some(st) => Finish(st)
      case None => None
  }

  // ---------------------------------------------------------------- whatever denotes an address is accepted

  lemma {:induction false} ScanToken(g: string, rest: string, st: Scanned)
    requires ScannedOk(st) && HexText(g) && |st.tok| + |g| <= 4
    ensures ScannedOk(st.(tok := st.tok + g))
    ensures Scan6(g + rest, st) == Scan6(rest, st.(tok := st.tok + g))
    decreases |g|
  {
    if g == "" {
      assert g + rest == rest && st.tok + g == st.tok;
    } else {
      var s := g + rest;
      assert s[0] == g[0] && s[1..] == g[1..] + rest;
      ScanToken(g[1..], rest, st.(tok := st.tok + [g[0]]));
      assert st.tok + [g[0]] + g[1..] == st.tok + g;
    }
  }

  lemma DecimalDigits(v: byte)
    ensures HexText(Decimal(v)) && 1 <= |Decimal(v)| <= 3
  {
    DecimalShort(v, 3);
    if v < 10 { TablesAgree(v); }
    else if v < 100 { TablesAgree(v / 10); TablesAgree(v % 10); }
    else { TablesAgree(v / 100); TablesAgree(v / 10 % 10); TablesAgree(v % 10); }
  }

  lemma ColonIsNoDigit()
    ensures HexValue(':') == None
  {
  }

  lemma DecimalStarts(v: byte)
    ensures Decimal(v) != "" && Decimal(v)[0] != ':'
  {
    DecimalDigits(v);
    assert HexValue(Decimal(v)[0]).Some?;
    ColonIsNoDigit();
  }

  lemma DottedStep(q: seq<byte>)
    requires |q| > 1
    ensures Dotted(q) == Decimal(q[0]) + ("." + Dotted(q[1..]))
  {
    hide Decimal;
    assert Dotted(q) == Decimal(q[0]) + "." + Dotted(q[1..]);
    hide Dotted;
    assert Decimal(q[0]) + "." + Dotted(q[1..]) == Decimal(q[0]) + ("." + Dotted(q[1..]));
  }

  lemma QuadStarts(q: seq<byte>)
    requires |q| == 4
    ensures Dotted(q) == Decimal(q[0]) + ("." + Dotted(q[1..])) && Dotted(q) != "" && Dotted(q)[0] != ':'
  {
    hide Decimal, Dotted;
    DecimalStarts(q[0]);
    DottedStep(q);
  }

  lemma {:induction false} TextNotEmpty(ps: seq<Piece>)
    requires Side(ps) && ps != []
    ensures TextOf(ps) != "" && TextOf(ps)[0] != ':'
  {
    if ps[0].Quad? {
      DottedLength(ps[0].octets);
      QuadStarts(ps[0].octets);
    } else {
      var g := ps[0].digits;
      assert HexValue(g[0]).Some?;
    }
  }

  lemma ScanQuad(q: seq<byte>, st: Scanned)
    requires ScannedOk(st) && st.tok == "" && |q| == 4 && |st.bytes| <= 12
    ensures Scan6(Dotted(q), st) == Some(Scanned(st.bytes + q, st.colon, ""))
  {
    QuadStarts(q);
    DecimalDigits(q[0]);
    var rest := "." + Dotted(q[1..]);
    ScanToken(Decimal(q[0]), rest, st);
    assert st.tok + Decimal(q[0]) == Decimal(q[0]);
    Pton4Exact(Decimal(q[0]) + rest, q);
  }

  lemma ScanEnd(st: Scanned)
    requires ScannedOk(st)
    ensures Scan6("", st) == Some(st)
  {
  }

  // The colon after a group, and the second colon of "::".
  lemma ScanColon(r: string, st: Scanned)
    requires ScannedOk(st)
    requires if st.tok == "" then st.colon == None else r != "" && |st.bytes| + 2 <= 16
    ensures
      var next := if st.tok == "" then st.(colon := Some(|st.bytes|))
        else Scanned(st.bytes + WordBytes(NumberOf(st.tok)), st.colon, "");
      Scan6(":" + r, st) == Scan6(r, next)
  {
    var s := ":" + r;
    assert s[0] == ':' && s[1..] == r;
  }

  // A group and its colon.
  lemma ScanGroup(g: string, r: string, st: Scanned)
    requires ScannedOk(st) && st.tok == "" && IsGroup(g) && r != "" && |st.bytes| + 2 <= 16
    ensures Scan6(g + (":" + r), st) == Scan6(r, Scanned(st.bytes + WordBytes(NumberOf(g)), st.colon, ""))
  {
    hide Scan6, NumberOf, WordBytes;
    ScanToken(g, ":" + r, st);
    assert st.tok + g == g;
    ScanColon(r, st.(tok := g));
  }

  lemma BytesSplit(p: Piece, ps: seq<Piece>, b: seq<byte>)
    requires Side([p] + ps) && Side(ps) && PieceOk(p)
    ensures BytesOf([p] + ps) == PieceBytes(p) + BytesOf(ps)
    ensures b + BytesOf([p] + ps) == b + PieceBytes(p) + BytesOf(ps)
  {
    assert ([p] + ps)[1..] == ps;
  }

  lemma NoBytes()
    ensures BytesOf([]) == []
  {
  }

  lemma {:induction false} ScanSide(ps: seq<Piece>, st: Scanned)
    requires ScannedOk(st) && st.tok == "" && Side(ps) && |st.bytes| + |BytesOf(ps)| <= 16
    ensures
      var r := Scan6(TextOf(ps), st);
      r.Some? && r.value.colon == st.colon && Complete(r.value) == Some(st.bytes + BytesOf(ps))
    decreases |ps|
  {
    hide Scan6, NumberOf, WordBytes, Dotted, BytesOf;
    if ps == [] {
      ScanEnd(st);
      assert st.bytes + BytesOf(ps) == st.bytes by { NoBytes(); }
    } else {
      var p, more := ps[0], ps[1..];
      assert ps == [p] + more;
      BytesSplit(p, more, st.bytes);
      if p.Quad? {
        assert more == [];
        NoBytes();
        ScanQuad(p.octets, st);
        assert st.bytes + p.octets + [] == st.bytes + p.octets;
      } else if more == [] {
        NoBytes();
        ScanToken(p.digits, "", st);
        assert st.tok + p.digits == p.digits && p.digits + "" == p.digits;
        ScanEnd(st.(tok := p.digits));
        assert st.bytes + PieceBytes(p) + [] == st.bytes + PieceBytes(p);
      } else {
        TextNotEmpty(more);
        ScanGroup(p.digits, TextOf(more), st);
        assert TextOf(ps) == p.digits + (":" + TextOf(more));
        ScanSide(more, Scanned(st.bytes + WordBytes(NumberOf(p.digits)), st.colon, ""));
      }
    }
  }

  // Groups that are each followed by a colon.
  function Terminated(l: seq<Piece>): string
  {
    if l == [] then "" else PieceText(l[0]) + ":" + Terminated(l[1..])
  }

  lemma {:induction false} TerminatedText(l: seq<Piece>)
    requires l != []
    ensures Terminated(l) == TextOf(l) + ":"
  {
    if |l| > 1 {
      TerminatedText(l[1..]);
    }
  }

  lemma {:induction false} ScanLead(l: seq<Piece>, r: string, st: Scanned)
    requires ScannedOk(st) && st.tok == "" && st.colon == None && AllGroups(l) && Side(l)
      && |st.bytes| + |BytesOf(l)| <= 16
    ensures Scan6(Terminated(l) + (":" + r), st)
      == Scan6(r, Scanned(st.bytes + BytesOf(l), Some(|st.bytes| + |BytesOf(l)|), ""))
    decreases |l|
  {
    hide Scan6, NumberOf, WordBytes, BytesOf;
    var tail := ":" + r;
    if l == [] {
      NoBytes();
      assert Terminated(l) + tail == tail && st.bytes + BytesOf(l) == st.bytes;
      ScanColon(r, st);
    } else {
      var p, more := l[0], l[1..];
      assert l == [p] + more;
      BytesSplit(p, more, st.bytes);
      var rest := Terminated(more) + tail;
      assert Terminated(l) + tail == p.digits + (":" + rest);
      ScanGroup(p.digits, rest, st);
      ScanLead(more, r, Scanned(st.bytes + WordBytes(NumberOf(p.digits)), None, ""));
    }
  }

  lemma FullAccepted(s: string, a: seq<byte>, ps: seq<Piece>)
    requires WrittenInFull(s, a, ps)
    ensures Parse6(s) == Some(a)
  {
    TextNotEmpty(ps);
    ScanSide(ps, START);
    assert [] + BytesOf(ps) == a;
  }

  lemma ShortBody(s: string, l: seq<Piece>, text: string)
    requires AllGroups(l) && Side(l) && text != "" && text[0] == ':' && s == TextOf(l) + ":" + text
    ensures
      var body := if s[0] == ':' then s[1..] else s;
      body == Terminated(l) + text && (body != s ==> body != "" && body[0] == ':')
    ensures s[0] == ':' ==> |s| > 1
  {
    if l == [] {
      assert s == ":" + text && s[1..] == text && Terminated(l) + text == text;
    } else {
      TerminatedText(l);
      TextNotEmpty(l);
      assert s == Terminated(l) + text;
    }
  }

  lemma ShortAccepted(s: string, a: seq<byte>, l: seq<Piece>, r: seq<Piece>)
    requires WrittenShort(s, a, l, r)
    ensures Parse6(s) == Some(a)
  {
    hide Scan6, BytesOf, Complete, Side, AllGroups, TextOf, Terminated, IsGroup, Zeros;
    var text := ":" + TextOf(r);
    var bl, br := BytesOf(l), BytesOf(r);
    ScanLead(l, TextOf(r), START);
    assert [] + bl == bl;
    ScanSide(r, Scanned(bl, Some(|bl|), ""));
    assert (bl + br)[..|bl|] == bl && (bl + br)[|bl|..] == br;
    ShortBody(s, l, text);
  }

  // ---------------------------------------------------------------- nothing else is accepted

  lemma NumberAppend(s: string, c: char)
    requires HexText(s) && HexValue(c).Some?
    ensures HexText(s + [c]) && NumberOf(s + [c]) == 16 * NumberOf(s) + HexValue(c).value
  {
    assert (s + [c])[..|s|] == s;
  }

  lemma EmptyOk(b: seq<byte>, colon: Option<nat>)
    ensures ScannedOk(Scanned(b, colon, "")) && HexText("") && NumberOf("") == 0
  {
  }

  lemma Digit6(st: Scanned, c: char)
    requires ScannedOk(st) && HexText(st.tok) && HexValue(c).Some? && |st.tok| < 4
    ensures HexText(st.tok + [c]) && ScannedOk(st.(tok := st.tok + [c]))
    ensures NumberOf(st.tok + [c]) == 16 * NumberOf(st.tok) + HexValue(c).value
  {
    NumberAppend(st.tok, c);
  }

  // The text still to be read, with the token begun, is the rest of an address.
  ghost predicate Rest6(text: string, st: Scanned, fin: Scanned, l: seq<Piece>, r: seq<Piece>, split: bool)
    requires ScannedOk(st) && ScannedOk(fin)
  {
    && AllGroups(l) && Side(l) && Side(r)
    && text == (if split then Terminated(l) + (":" + TextOf(r)) else TextOf(r))
    && Complete(fin) == Some(st.bytes + BytesOf(l) + BytesOf(r))
    && (split ==> st.colon == None && fin.colon == Some(|st.bytes| + |BytesOf(l)|))
    && (!split ==> l == [] && fin.colon == st.colon)
  }

  lemma RestEnd(st: Scanned) returns (r: seq<Piece>)
    requires ScannedOk(st) && Complete(st).Some?
    ensures Rest6(st.tok + "", st, st, [], r, false) || st.tok != ""
    ensures st.tok != "" ==> Rest6(st.tok, st.(tok := ""), st, [], r, false)
  {
    r := if st.tok == "" then [] else [Group(st.tok)];
    assert st.bytes + [] + [] == st.bytes;
    if st.tok != "" {
      var b := WordBytes(NumberOf(st.tok));
      assert BytesOf(r) == b + [] == b;
      assert st.bytes + [] + b == st.bytes + b;
    }
  }

  // A group in front of the rest of an address.
  lemma GroupLeft(g: string, text: string, st: Scanned, fin: Scanned, l: seq<Piece>, r: seq<Piece>)
    requires ScannedOk(st) && ScannedOk(fin) && IsGroup(g) && st.tok == ""
    requires Rest6(text, st.(bytes := st.bytes + WordBytes(NumberOf(g))), fin, l, r, true)
    ensures Rest6(g + (":" + text), st, fin, [Group(g)] + l, r, true)
  {
    hide Complete, WordBytes, NumberOf, BytesOf, TextOf;
    var l' := [Group(g)] + l;
    assert l'[1..] == l;
    BytesSplit(Group(g), l, st.bytes);
    assert g + (":" + text) == Terminated(l') + (":" + TextOf(r));
  }

  lemma SideText(r: seq<Piece>, text: string)
    requires text == TextOf(r) && text != ""
    ensures r != []
  {
  }

  lemma GroupText(g: string, r: seq<Piece>)
    requires IsGroup(g) && r != [] && Side(r)
    ensures Side([Group(g)] + r) && TextOf([Group(g)] + r) == g + ":" + TextOf(r)
  {
    hide HexText;
    var r' := [Group(g)] + r;
    assert r'[1..] == r;
  }

  lemma GroupRight(g: string, text: string, st: Scanned, fin: Scanned, r: seq<Piece>)
    requires ScannedOk(st) && ScannedOk(fin) && IsGroup(g) && text != "" && st.tok == ""
    requires Rest6(text, st.(bytes := st.bytes + WordBytes(NumberOf(g))), fin, [], r, false)
    ensures Rest6(g + (":" + text), st, fin, [], [Group(g)] + r, false)
  {
    hide Complete, WordBytes, NumberOf, BytesOf, Terminated, HexText;
    var b := WordBytes(NumberOf(g));
    NoBytes();
    SideText(r, text);
    GroupText(g, r);
    BytesSplit(Group(g), r, st.bytes);
    hide Side, AllGroups, TextOf, PieceOk;
    assert g + ":" + TextOf(r) == g + (":" + text);
    assert st.bytes + [] == st.bytes && st.bytes + b + [] == st.bytes + b;
  }

  // The second colon of "::" in front of the rest of an address.
  lemma RestColon(text: string, st: Scanned, fin: Scanned, l: seq<Piece>, r: seq<Piece>, split: bool)
    returns (split': bool)
    requires ScannedOk(st) && ScannedOk(fin) && st.colon == None && st.tok == ""
    requires Rest6("" + text, st.(colon := Some(|st.bytes|), tok := ""), fin, l, r, split)
    ensures split' && Rest6(":" + text, st, fin, l, r, split')
  {
    hide Complete;
    NoBytes();
    assert "" + text == text && Terminated([]) + (":" + TextOf(r)) == ":" + TextOf(r);
    split' := true;
  }

  lemma RestUnsplit(text: string, st: Scanned, fin: Scanned, l: seq<Piece>, r: seq<Piece>)
    requires ScannedOk(st) && ScannedOk(fin) && Rest6(text, st, fin, l, r, false)
    ensures l == []
  {
  }

  lemma RestQuad(text: string, st: Scanned, q: seq<byte>)
    requires ScannedOk(st) && |q| == 4 && text == Dotted(q)
    ensures Rest6(text, st.(tok := ""), Scanned(st.bytes + q, st.colon, ""), [], [Quad(q)], false)
  {
    assert BytesOf([Quad(q)]) == q + [] == q;
    assert st.bytes + [] + q == st.bytes + q;
  }

  // A group in front of what was read.
  lemma SoundGroup(text: string, st: Scanned, next: Scanned, fin: Scanned, l: seq<Piece>, r: seq<Piece>, split: bool)
    returns (l': seq<Piece>, r': seq<Piece>)
    requires ScannedOk(st) && ScannedOk(fin) && IsGroup(st.tok) && ScannedOk(next) && text != ""
    requires next == Scanned(st.bytes + WordBytes(NumberOf(st.tok)), st.colon, "")
    requires Rest6(text, next, fin, l, r, split)
    ensures ScannedOk(st.(tok := "")) && Rest6(st.tok + (":" + text), st.(tok := ""), fin, l', r', split)
  {
    hide Rest6, Complete, WordBytes, NumberOf, Terminated, TextOf;
    EmptyOk(st.bytes, st.colon);
    assert st.(tok := "").(bytes := st.bytes + WordBytes(NumberOf(st.tok))) == next;
    if split {
      GroupLeft(st.tok, text, st.(tok := ""), fin, l, r);
      l', r' := [Group(st.tok)] + l, r;
    } else {
      RestUnsplit(text, next, fin, l, r);
      GroupRight(st.tok, text, st.(tok := ""), fin, r);
      l', r' := [], [Group(st.tok)] + r;
    }
  }

  lemma {:induction false} Scan6Sound(rest: string, st: Scanned, fin: Scanned)
    returns (l: seq<Piece>, r: seq<Piece>, split: bool)
    requires ScannedOk(st) && Scan6(rest, st) == Some(fin) && Complete(fin).Some?
    ensures Rest6(st.tok + rest, st.(tok := ""), fin, l, r, split)
    decreases |rest|, 1
  {
    hide Rest6, Complete, WordBytes, NumberOf, HexValue, Terminated, TextOf, HexText;
    if rest == "" {
      assert st.tok + rest == st.tok;
      r := RestEnd(st);
      l, split := [], false;
      if st.tok == "" {
        assert st.(tok := "") == st;
      }
    } else if HexValue(rest[0]).Some? {
      Digit6(st, rest[0]);
      l, r, split := Scan6Sound(rest[1..], st.(tok := st.tok + [rest[0]]), fin);
      assert st.tok + [rest[0]] + rest[1..] == st.tok + rest;
    } else if rest[0] == ':' {
      l, r, split := ColonSound(rest, st, fin);
    } else {
      var q := Scan4(st.tok + rest, [], None).value;
      Pton4Exact(st.tok + rest, q);
      l, r, split := [], [Quad(q)], false;
      RestQuad(st.tok + rest, st, q);
    }
  }

  // A colon behind nothing, or behind a group.
  lemma {:induction false} ColonSound(rest: string, st: Scanned, fin: Scanned)
    returns (l: seq<Piece>, r: seq<Piece>, split: bool)
    requires ScannedOk(st) && Scan6(rest, st) == Some(fin) && Complete(fin).Some?
    requires rest != "" && rest[0] == ':' && HexValue(rest[0]).None?
    ensures Rest6(st.tok + rest, st.(tok := ""), fin, l, r, split)
    decreases |rest|, 0
  {
    hide Rest6, Complete, WordBytes, NumberOf, HexValue, Terminated, TextOf, HexText;
    assert rest == ":" + rest[1..] && "" + rest[1..] == rest[1..];
    if st.tok == "" {
      var next := st.(colon := Some(|st.bytes|));
      l, r, split := Scan6Sound(rest[1..], next, fin);
      split := RestColon(rest[1..], st, fin, l, r, split);
      assert st.tok + rest == ":" + rest[1..];
    } else {
      var next := Scanned(st.bytes + WordBytes(NumberOf(st.tok)), st.colon, "");
      EmptyOk(next.bytes, next.colon);
      l, r, split := Scan6Sound(rest[1..], next, fin);
      l, r := SoundGroup(rest[1..], st, next, fin, l, r, split);
      assert st.tok + rest == st.tok + (":" + rest[1..]);
    }
  }

  lemma NoText()
    ensures TextOf([]) == "" && Terminated([]) == "" && Side([]) && AllGroups([])
  {
  }

  lemma LeadingColon(s: string, a: seq<byte>)
    requires Parse6(s) == Some(a) && s != "" && s[0] == ':'
    ensures Denotes(s, a)
  {
    hide Scan6, BytesOf, Side, AllGroups, TextOf, Terminated;
    NoBytes();
    assert s == ":" + (":" + s[2..]) && s[1..] == ":" + s[2..];
    ScanColon(s[2..], START);
    var st := Scanned([], Some(0), "");
    var fin := Scan6(s[2..], st).value;
    var l, r, split := Scan6Sound(s[2..], st, fin);
    assert "" + s[2..] == s[2..] && [] + [] + BytesOf(r) == BytesOf(r);
    NoText();
    assert BytesOf(r)[..0] == [] && BytesOf(r)[0..] == BytesOf(r);
    assert s == TextOf([]) + "::" + TextOf(r);
    assert WrittenShort(s, a, [], r);
  }

  lemma NoLeadingColon(s: string, a: seq<byte>)
    requires Parse6(s) == Some(a) && (s == "" || s[0] != ':')
    ensures Denotes(s, a)
  {
    hide Scan6, BytesOf, Side, AllGroups, TextOf, Terminated, Zeros, NumberOf, WordBytes, Scan4;
    var fin := Scan6(s, START).value;
    var l, r, split := Scan6Sound(s, START, fin);
    assert "" + s == s;
    var b := BytesOf(l) + BytesOf(r);
    assert [] + BytesOf(l) + BytesOf(r) == b;
    if split {
      if l == [] {
        NoText();
        assert false;
      }
      TerminatedText(l);
      assert b[..|BytesOf(l)|] == BytesOf(l) && b[|BytesOf(l)|..] == BytesOf(r);
      assert s == TextOf(l) + "::" + TextOf(r);
      assert WrittenShort(s, a, l, r);
    } else {
      NoBytes();
      assert b == BytesOf(r);
      assert WrittenInFull(s, a, r);
    }
  }

  // inet_pton6 accepts exactly the texts that denote an address, with that address.
  lemma Parse6Exact(s: string, a: seq<byte>)
    ensures Parse6(s) == Some(a) <==> Denotes(s, a)
  {
    hide Parse6, WrittenInFull, WrittenShort;
    if Parse6(s) == Some(a) {
      if s != "" && s[0] == ':' {
        LeadingColon(s, a);
      } else {
        NoLeadingColon(s, a);
      }
    }
    if ps :| WrittenInFull(s, a, ps) {
      FullAccepted(s, a, ps);
    }
    if l, r :| WrittenShort(s, a, l, r) {
      ShortAccepted(s, a, l, r);
    }
  }

  // The parser's answer is r: the address s denotes, or none.
  ghost predicate Answers6(s: string, r: Option<seq<byte>>)
  {
    forall a: seq<byte> :: r == Some(a) <==> Denotes(s, a)
  }

  lemma Exact6(s: string)
    ensures Answers6(s, Parse6(s))
  {
    hide Parse6, Denotes;
    forall a: seq<byte> ensures Parse6(s) == Some(a) <==> Denotes(s, a) {
      Parse6Exact(s, a);
    }
  }

  // ---------------------------------------------------------------- inet_pton6

  // The bytes with a gap of zeros before the last k.
  function Gapped(b: seq<byte>, k: nat): (g: seq<byte>)
    requires k <= |b| < 16
    ensures |g| == 16
  {
    b[..|b| - k] + Zeros(16 - |b|) + b[|b| - k..]
  }

  lemma ShiftStep(b: seq<byte>, tp: nat, i: nat)
    requires 1 <= i <= |b| == tp < 16
    ensures Gapped(b, i - 1)[tp - i] == b[tp - i]
    ensures Gapped(b, i - 1)[16 - i := b[tp - i]][tp - i := 0] == Gapped(b, i)
  {
    var g, h := Gapped(b, i - 1)[16 - i := b[tp - i]][tp - i := 0], Gapped(b, i);
    forall k | 0 <= k < 16 ensures g[k] == h[k] {
    }
  }

  // The bytes from colonp on move to the end, one by one and last first, and leave zeros.
  method ShiftToEnd(tmp: array<byte>, colonp: nat, tp: nat)
    requires colonp <= tp < tmp.Length == 16 && tmp[tp..] == Zeros(16 - tp)
    modifies tmp
    ensures tmp[..] == old(tmp[..colonp]) + Zeros(16 - tp) + old(tmp[colonp..tp])
  {
    var n := tp - colonp;
    ghost var b := tmp[..tp];
    assert tmp[..] == tmp[..tp] + tmp[tp..] == Gapped(b, 0);
    for i := 1 to n + 1
      invariant tmp[..] == Gapped(b, i - 1)
    {
      ShiftStep(b, tp, i);
      tmp[16 - i] := tmp[colonp + n - i];
      tmp[colonp + n - i] := 0;
    }
    assert b[..colonp] == old(tmp[..colonp]) && b[colonp..] == old(tmp[colonp..tp]);
  }

  // Storing the group read, high byte first.
  method StoreGroup(tmp: array<byte>, tp: nat, val: nat)
    requires tp + 2 <= tmp.Length == 16 && tmp[tp..] == Zeros(16 - tp)
    modifies tmp
    ensures tmp[..tp + 2] == old(tmp[..tp]) + WordBytes(val) && tmp[tp + 2..] == Zeros(16 - (tp + 2))
  {
    tmp[tp] := val / 256 % 256;
    tmp[tp + 1] := val % 256;
    assert tmp[tp + 2..] == old(tmp[tp..])[2..];
  }

  // inet_pton4 writes its four bytes at tp.
  method StoreQuad(tmp: array<byte>, tp: nat, q: seq<byte>)
    requires tp + 4 <= tmp.Length == 16 && |q| == 4 && tmp[tp..] == Zeros(16 - tp)
    modifies tmp
    ensures tmp[..tp + 4] == old(tmp[..tp]) + q && tmp[tp + 4..] == Zeros(16 - (tp + 4))
  {
    tmp[tp], tmp[tp + 1], tmp[tp + 2], tmp[tp + 3] := q[0], q[1], q[2], q[3];
    assert tmp[tp + 4..] == old(tmp[tp..])[4..];
  }

  lemma ParseOfBody(s: string, body: string)
    requires if s != "" && s[0] == ':' then |s| > 1 && s[1] == ':' && body == s[1..] else body == s
    ensures Parse6(s) == (match Scan6(body, START) case Some(st) => Finish(st) case None => None)
  {
    hide Scan6, Finish;
  }

  // One step of the scanner, by what it meets.
  lemma MeetDigit(rest: string, st: Scanned)
    requires ScannedOk(st) && rest != "" && HexValue(rest[0]).Some?
    ensures |st.tok| == 4 ==> Scan6(rest, st) == None
    ensures |st.tok| < 4 ==>
      ScannedOk(st.(tok := st.tok + [rest[0]])) && Scan6(rest, st) == Scan6(rest[1..], st.(tok := st.tok + [rest[0]]))
  {
  }

  lemma MeetColon(rest: string, st: Scanned)
    requires ScannedOk(st) && rest != "" && rest[0] == ':'
    ensures st.tok == "" && st.colon.Some? ==> Scan6(rest, st) == None
    ensures st.tok == "" && st.colon.None? ==> Scan6(rest, st) == Scan6(rest[1..], st.(colon := Some(|st.bytes|)))
    ensures st.tok != "" && (|rest| == 1 || |st.bytes| + 2 > 16) ==> Scan6(rest, st) == None
    ensures st.tok != "" && |rest| > 1 && |st.bytes| + 2 <= 16 ==>
      Scan6(rest, st) == Scan6(rest[1..], Scanned(st.bytes + WordBytes(NumberOf(st.tok)), st.colon, ""))
  {
  }

  lemma MeetOther(rest: string, st: Scanned)
    requires ScannedOk(st) && rest != "" && HexValue(rest[0]).None? && rest[0] != ':'
    ensures Scan6(rest, st) ==
      if rest[0] == '.' && |st.bytes| + 4 <= 16 && Scan4(st.tok + rest, [], None).Some?
      then Some(Scanned(st.bytes + Scan4(st.tok + rest, [], None).value, st.colon, "")) else None
  {
  }

  // A colon behind a group, or behind another one.
  method TakeColon(src: CString, i: nat, tmp: array<byte>, tp: nat, colonp: Option<nat>, seen: nat, val: nat,
      ghost st: Scanned)
    returns (ok: bool, tp': nat, colonp': Option<nat>)
    requires 0 < i <= |src| && src[i - 1] == ':' && tmp.Length == 16 && tp <= 16 && tmp[tp..] == Zeros(16 - tp)
    requires ScannedOk(st) && st == Scanned(tmp[..tp], colonp, st.tok) && (colonp.Some? ==> colonp.value <= tp)
    requires (seen == 0 <==> st.tok == "") && val == NumberOf(st.tok)
    modifies tmp
    ensures !ok ==> Scan6(src[i - 1..], st) == None
    ensures tp' <= 16 && tmp[tp'..] == Zeros(16 - tp') && (colonp'.Some? ==> colonp'.value <= tp')
    ensures ScannedOk(Scanned(tmp[..tp'], colonp', "")) && HexText("") && NumberOf("") == 0
    ensures ok ==> Scan6(src[i - 1..], st) == Scan6(src[i..], Scanned(tmp[..tp'], colonp', ""))
  {
    hide WordBytes, NumberOf, Zeros, HexText, ScannedOk, Scan6;
    ghost var rest := src[i - 1..];
    assert rest[0] == ':' && rest[1..] == src[i..];
    MeetColon(rest, st);
    tp', colonp' := tp, colonp;
    EmptyOk(tmp[..tp'], colonp');
    if seen == 0 {
      if colonp.Some? {
        return false, tp', colonp';
      }
      colonp' := Some(tp);
    } else if CharAt(src, i) == '\0' {
      return false, tp', colonp';
    } else {
      if tp + 2 > 16 {
        return false, tp', colonp';
      }
      StoreGroup(tmp, tp, val);
      tp' := tp + 2;
    }
    EmptyOk(tmp[..tp'], colonp');
    ok := true;
  }

  lemma ParseLoneColon(s: string)
    requires s != "" && s[0] == ':' && (|s| == 1 || s[1] != ':')
    ensures Parse6(s) == None
  {
  }

  lemma AllZeros(b: seq<byte>)
    requires forall i :: 0 <= i < |b| ==> b[i] == 0
    ensures b == Zeros(|b|)
  {
  }

  lemma EmptyToken()
    ensures HexText("") && NumberOf("") == 0 && ScannedOk(START)
  {
  }

  lemma EndOk(st: Scanned)
    ensures ScannedOk(st) ==> Scan6("", st) == Some(st)
    ensures ScannedOk(st.(tok := ""))
  {
  }

  // The groups, the double colon and the dotted end of an address, as far as the text goes.
  method ScanBody(src: CString, start: nat, tmp: array<byte>)
    returns (ok: bool, tp: nat, colonp: Option<nat>, seen: nat, val: nat, ghost fin: Scanned)
    requires start <= |src| && tmp.Length == 16 && tmp[..] == Zeros(16)
    modifies tmp
    ensures !ok ==> Scan6(src[start..], START) == None
    ensures ok ==> Scan6(src[start..], START) == Some(fin) && ScannedOk(fin)
    ensures ok ==> tp <= 16 && tmp[tp..] == Zeros(16 - tp) && (colonp.Some? ==> colonp.value <= tp)
    ensures ok ==> fin.bytes == tmp[..tp] && fin.colon == colonp
    ensures ok ==> (seen == 0 <==> fin.tok == "") && (seen != 0 ==> val == NumberOf(fin.tok))
  {
    hide Answers4, WordBytes, NumberOf, Zeros, HexText, HexValue, ScannedOk, Scan6, Scan4;
    EmptyToken();
    ok, tp, colonp, seen, val := false, 0, None, 0, 0;
    var i: nat, curtok: nat := start, start;
    ghost var tok := "";
    fin := START;
    assert tmp[..0] == [] && tmp[0..] == tmp[..] && src[i..i] == "";
    while CharAt(src, i) != '\0'
      invariant !ok && curtok <= i <= |src| && tok == src[curtok..i] && |tok| == seen <= 4
      invariant HexText(tok) && val == NumberOf(tok)
      invariant tp <= 16 && ScannedOk(Scanned(tmp[..tp], colonp, tok))
      invariant tmp[tp..] == Zeros(16 - tp) && (colonp.Some? ==> colonp.value <= tp)
      invariant Scan6(src[start..], START) == Scan6(src[i..], Scanned(tmp[..tp], colonp, tok))
      decreases |src| - i
    {
      var ch := CharAt(src, i);
      ghost var st := Scanned(tmp[..tp], colonp, tok);
      ghost var rest := src[i..];
      assert rest[0] == ch && rest[1..] == src[i + 1..];
      i := i + 1;
      var pch := HexValue(ch);
      if pch.Some? {
        MeetDigit(rest, st);
        val := val * 16 + pch.value;
        seen := seen + 1;
        if seen > 4 {
          return;
        }
        Digit6(st, ch);
        tok := tok + [ch];
        assert tok == src[curtok..i];
        continue;
      }
      if ch == ':' {
        curtok := i;
        var taken;
        taken, tp, colonp := TakeColon(src, i, tmp, tp, colonp, seen, val, st);
        if !taken {
          return;
        }
        seen, val, tok := 0, 0, "";
        assert src[i..i] == "";
        continue;
      }
      assert tok + rest == src[curtok..];
      MeetOther(rest, st);
      if ch == '.' && tp + 4 <= 16 {
        var q := Pton4(src[curtok..]);
        if q.Some? {
          StoreQuad(tmp, tp, q.value);
          tp, seen := tp + 4, 0;
          ok, fin := true, Scanned(tmp[..tp], colonp, "");
          EndOk(fin);
          return;
        }
      }
      return;
    }
    assert src[i..] == "";
    fin := Scanned(tmp[..tp], colonp, tok);
    EndOk(fin);
    ok := true;
  }

  // The end of inet_pton6: the last group, the shift, and the length.
  method Assemble(tmp: array<byte>, at: nat, colonp: Option<nat>, seen: nat, val: nat, ghost fin: Scanned)
    returns (r: Option<seq<byte>>)
    requires at <= tmp.Length == 16 && tmp[at..] == Zeros(16 - at) && (colonp.Some? ==> colonp.value <= at)
    requires ScannedOk(fin) && fin.bytes == tmp[..at] && fin.colon == colonp && (seen == 0 <==> fin.tok == "")
    requires seen != 0 ==> val == NumberOf(fin.tok)
    modifies tmp
    ensures r == Finish(fin)
  {
    hide WordBytes, NumberOf, Zeros;
    var tp := at;
    if seen != 0 {
      if tp + 2 > 16 {
        return None;
      }
      StoreGroup(tmp, tp, val);
      tp := tp + 2;
    }
    ghost var b := tmp[..tp];
    assert Complete(fin) == Some(b);
    if colonp.Some? {
      if tp == 16 {
        return None;
      }
      assert b[..colonp.value] == tmp[..colonp.value] && b[colonp.value..] == tmp[colonp.value..tp];
      ShiftToEnd(tmp, colonp.value, tp);
      tp := 16;
    }
    if tp != 16 {
      return None;
    }
    assert tmp[..16] == tmp[..];
    return Some(tmp[..]);
  }

  method Pton6(src: CString) returns (r: Option<seq<byte>>)
    ensures Answers6(src, r)
    ensures r == Parse6(src)
  {
    hide Answers6, ScannedOk, Finish, Parse6, Scan6, Zeros;
    Exact6(src);
    var i := 0;
    if CharAt(src, i) == ':' {
      i := i + 1;
      if CharAt(src, i) != ':' {
        ParseLoneColon(src);
        return None;
      }
    }
    ParseOfBody(src, src[i..]);
    var tmp := new byte[16](_ => 0);
    assert tmp[..] == Zeros(16) by { AllZeros(tmp[..]); }
    var ok, tp, colonp, seen, val;
    ghost var fin;
    ok, tp, colonp, seen, val, fin := ScanBody(src, i, tmp);
    if !ok {
      return None;
    }
    r := Assemble(tmp, tp, colonp, seen, val, fin);
  }

  // ---------------------------------------------------------------- what inet_ntop6 prints

  function WordAt(a: seq<byte>, i: nat): (w: word)
    requires |a| == 16 && i < 8
    ensures WordBytes(w) == [a[2 * i], a[2 * i + 1]]
  {
    (a[2 * i] as int) * 256 + a[2 * i + 1]
  }

  function WordsOf(a: seq<byte>): (ws: seq<word>)
    requires |a| == 16
    ensures |ws| == 8
  {
    seq(8, i requires 0 <= i < 8 => WordAt(a, i))
  }

  function HexGroups(ws: seq<word>): (ps: seq<Piece>)
    ensures |ps| == |ws|
  {
    if ws == [] then [] else [Group(Hex(ws[0]))] + HexGroups(ws[1..])
  }

  function HexText6(ws: seq<word>): string
  {
    TextOf(HexGroups(ws))
  }

  predicate ZeroRun(ws: seq<word>, p: int, m: int)
  {
    0 <= p && 0 < m && p + m <= |ws| && forall j :: p <= j < p + m ==> ws[j] == 0
  }

  // Among the zero runs that end by k, the one at b is longest, and first of its length.
  ghost predicate FirstLongest(ws: seq<word>, k: int, b: int, l: int)
  {
    && ZeroRun(ws, b, l) && b + l <= k
    && forall p, m :: ZeroRun(ws, p, m) && p + m <= k ==> m < l || (m == l && b <= p)
  }

  // An IPv4 address inside: ::d.d.d.d or ::ffff:d.d.d.d.
  predicate Embeds4(ws: seq<word>, b: int, l: int)
    requires |ws| == 8
  {
    b == 0 && (l == 6 || (l == 5 && ws[5] == 0xffff))
  }

  function ShortText(a: seq<byte>, b: int, l: int): string
    requires |a| == 16 && 0 <= b && 0 < l && b + l <= 8
  {
    var ws := WordsOf(a);
    if Embeds4(ws, b, l) then "::" + (if l == 5 then "ffff:" else "") + Dotted(a[12..])
    else HexText6(ws[..b]) + "::" + HexText6(ws[b + l..])
  }

  ghost predicate Compresses(a: seq<byte>, text: string, b: int, l: int)
    requires |a| == 16
  {
    FirstLongest(WordsOf(a), 8, b, l) && l >= 2 && text == ShortText(a, b, l)
  }

  ghost predicate NoLongRun(ws: seq<word>)
  {
    forall p, m :: ZeroRun(ws, p, m) ==> m < 2
  }

  // Sections 4.2.1 to 4.2.3 of RFC 5952: the first longest run of two or more zero groups is "::",
  // and a single zero group is printed.
  ghost predicate Prints6(a: seq<byte>, text: string)
    requires |a| == 16
  {
    (NoLongRun(WordsOf(a)) && text == HexText6(WordsOf(a))) || exists b, l :: Compresses(a, text, b, l)
  }

  // What an address is printed with.
  predicate IsPrinted(c: char)
  {
    c == ':' || c == '.' || '0' <= c <= '9' || 'a' <= c <= 'f'
  }

  predicate AllPrinted(s: string)
  {
    forall i :: 0 <= i < |s| ==> IsPrinted(s[i])
  }

  lemma {:induction false} HexTextPrinted(ws: seq<word>)
    ensures AllPrinted(HexText6(ws))
    decreases |ws|
  {
    if ws != [] {
      HexCanonical(ws[0]);
      HexTextPrinted(ws[1..]);
      hide Hex;
      var ps := HexGroups(ws);
      assert ps[0] == Group(Hex(ws[0])) && ps[1..] == HexGroups(ws[1..]);
    }
  }

  lemma {:induction false} DecimalPrinted(n: nat)
    ensures AllPrinted(Decimal(n))
  {
    TablesAgree(n % 10);
    if n >= 10 {
      DecimalPrinted(n / 10);
    }
  }

  lemma {:induction false} DottedPrinted(b: seq<byte>)
    ensures AllPrinted(Dotted(b))
    decreases |b|
  {
    if b != [] {
      DecimalPrinted(b[0]);
      DottedPrinted(b[1..]);
    }
  }

  lemma RunOf(ws: seq<word>, b: int, l: int)
    requires FirstLongest(ws, 8, b, l)
    ensures ZeroRun(ws, b, l)
  {
  }

  // Section 4.3 of RFC 5952: an address is printed in digits, lower-case letters, colons and dots.
  lemma PrintedLower(a: seq<byte>, text: string)
    requires |a| == 16 && Prints6(a, text)
    ensures forall c :: c in text ==> c == ':' || c == '.' || '0' <= c <= '9' || 'a' <= c <= 'f'
  {
    hide HexText6, Dotted, FirstLongest;
    var ws := WordsOf(a);
    DottedPrinted(a[12..]);
    if NoLongRun(ws) && text == HexText6(ws) {
      HexTextPrinted(ws);
    } else {
      var b, l :| Compresses(a, text, b, l);
      assert ZeroRun(ws, b, l) by { RunOf(ws, b, l); }
      HexTextPrinted(ws[..b]);
      HexTextPrinted(ws[b + l..]);
    }
  }

  lemma {:induction false} HexTextUndotted(ws: seq<word>)
    ensures '.' !in HexText6(ws)
    decreases |ws|
  {
    if ws != [] {
      HexCanonical(ws[0]);
      HexTextUndotted(ws[1..]);
      hide Hex;
      var ps := HexGroups(ws);
      assert ps[0] == Group(Hex(ws[0])) && ps[1..] == HexGroups(ws[1..]);
    }
  }

  // An address that holds an IPv4 address: compatible, but not just one group, or mapped.
  predicate HoldsIPv4(a: seq<byte>)
    requires |a| == 16
  {
    && (forall i :: 0 <= i < 10 ==> a[i] == 0)
    && ((a[10] == 0xff && a[11] == 0xff) || (a[10] == 0 && a[11] == 0 && (a[12] != 0 || a[13] != 0)))
  }

  lemma LeadingZeros(a: seq<byte>)
    requires |a| == 16
    ensures
      var ws := WordsOf(a);
      HoldsIPv4(a) <==> ZeroRun(ws, 0, 5) && (ws[5] == 0xffff || (ws[5] == 0 && ws[6] != 0))
  {
    var ws := WordsOf(a);
    assert forall i :: 0 <= i < 8 ==> (ws[i] == 0 <==> a[2 * i] == 0 && a[2 * i + 1] == 0);
    assert forall i :: 0 <= i < 5 ==> (a[2 * i] == 0 && a[2 * i + 1] == 0 <==> ws[i] == 0);
    if ZeroRun(ws, 0, 5) {
      forall i | 0 <= i < 10 ensures a[i] == 0 {
        assert ws[i / 2] == 0;
      }
    }
    if HoldsIPv4(a) {
      assert forall j :: 0 <= j < 5 ==> ws[j] == 0;
    }
  }

  lemma EmbedsRun(ws: seq<word>, b: int, l: int)
    requires |ws| == 8 && FirstLongest(ws, 8, b, l)
    ensures Embeds4(ws, b, l) <==> ZeroRun(ws, 0, 5) && (ws[5] == 0xffff || (ws[5] == 0 && ws[6] != 0))
  {
    if ZeroRun(ws, 0, 5) && ws[5] == 0 {
      assert ZeroRun(ws, 0, 6);
      if ws[6] == 0 {
        assert ZeroRun(ws, 0, 7);
      }
    }
  }

  // An address is printed with dots exactly when it holds an IPv4 address.
  lemma DottedExactly(a: seq<byte>, text: string)
    requires |a| == 16 && Prints6(a, text)
    ensures '.' in text <==> HoldsIPv4(a)
  {
    hide HexText6, FirstLongest, Embeds4, HoldsIPv4, WordsOf;
    var ws := WordsOf(a);
    LeadingZeros(a);
    if NoLongRun(ws) && text == HexText6(ws) {
      HexTextUndotted(ws);
    } else {
      var b, l :| Compresses(a, text, b, l);
      assert ZeroRun(ws, b, l) by { RunOf(ws, b, l); }
      EmbedsRun(ws, b, l);
      HexTextUndotted(ws[..b]);
      HexTextUndotted(ws[b + l..]);
      assert Dotted(a[12..])[|Decimal(a[12])|] == '.';
    }
  }

  lemma PrintUnique(a: seq<byte>, t: string, u: string)
    requires |a| == 16 && Prints6(a, t) && Prints6(a, u)
    ensures t == u
  {
    hide ShortText, ZeroRun;
    var ws := WordsOf(a);
    if NoLongRun(ws) {
      assert forall b, l :: FirstLongest(ws, 8, b, l) ==> l < 2;
    } else {
      var b, l :| Compresses(a, t, b, l);
      var b', l' :| Compresses(a, u, b', l');
      assert ZeroRun(ws, b, l) && ZeroRun(ws, b', l');
    }
  }

  // ---------------------------------------------------------------- what is printed denotes the address

  function Flat(ws: seq<word>): seq<byte>
  {
    if ws == [] then [] else WordBytes(ws[0]) + Flat(ws[1..])
  }

  lemma {:induction false} HexGroupsFlat(ws: seq<word>)
    ensures AllGroups(HexGroups(ws)) && Side(HexGroups(ws)) && BytesOf(HexGroups(ws)) == Flat(ws)
  {
    hide Hex, NumberOf, WordBytes;
    if ws != [] {
      HexCanonical(ws[0]);
      HexGroupsFlat(ws[1..]);
      assert HexGroups(ws)[1..] == HexGroups(ws[1..]);
    }
  }

  lemma {:induction false} FlatWords(a: seq<byte>, lo: nat, hi: nat)
    requires |a| == 16 && lo <= hi <= 8
    ensures Flat(WordsOf(a)[lo..hi]) == a[2 * lo..2 * hi]
    decreases hi - lo
  {
    hide WordBytes;
    var ws := WordsOf(a)[lo..hi];
    if lo < hi {
      assert ws[1..] == WordsOf(a)[lo + 1..hi];
      FlatWords(a, lo + 1, hi);
      assert a[2 * lo..2 * hi] == [a[2 * lo], a[2 * lo + 1]] + a[2 * (lo + 1)..2 * hi];
    }
  }

  lemma HexGroupsBytes(a: seq<byte>, lo: nat, hi: nat)
    requires |a| == 16 && lo <= hi <= 8
    ensures var ps := HexGroups(WordsOf(a)[lo..hi]); AllGroups(ps) && Side(ps) && BytesOf(ps) == a[2 * lo..2 * hi]
  {
    HexGroupsFlat(WordsOf(a)[lo..hi]);
    FlatWords(a, lo, hi);
  }

  lemma ZeroBytes(a: seq<byte>, b: int, l: int)
    requires |a| == 16 && ZeroRun(WordsOf(a), b, l)
    ensures a == a[..2 * b] + Zeros(2 * l) + a[2 * (b + l)..]
  {
    forall k | 2 * b <= k < 2 * (b + l) ensures a[k] == 0 {
      assert WordsOf(a)[k / 2] == 0;
      assert WordBytes(WordAt(a, k / 2)) == [0, 0];
    }
    assert Zeros(2 * l) == a[2 * b..2 * (b + l)];
  }

  lemma ShortDenotes(a: seq<byte>, b: int, l: int)
    requires |a| == 16 && ZeroRun(WordsOf(a), b, l) && !Embeds4(WordsOf(a), b, l)
    ensures Denotes(ShortText(a, b, l), a)
  {
    hide WordAt, Zeros, BytesOf, TextOf, Side, AllGroups, HexGroups;
    var ws := WordsOf(a);
    HexGroupsBytes(a, 0, b);
    HexGroupsBytes(a, b + l, 8);
    ZeroBytes(a, b, l);
    assert ws[0..b] == ws[..b] && ws[b + l..8] == ws[b + l..] && a[2 * (b + l)..16] == a[2 * (b + l)..]
      && a[0..2 * b] == a[..2 * b];
    assert WrittenShort(ShortText(a, b, l), a, HexGroups(ws[..b]), HexGroups(ws[b + l..]));
  }

  lemma FfffGroup()
    ensures Hex(0xffff) == "ffff" && IsGroup("ffff") && NumberOf("ffff") == 0xffff && WordBytes(0xffff) == [255, 255]
  {
    hide NumberOf, HexText;
    assert Hex(0xf) == "f";
    assert Hex(0xff) == "ff";
    assert Hex(0xfff) == "fff";
    HexCanonical(0xffff);
  }

  lemma QuadSide(q: seq<byte>)
    requires |q| == 4
    ensures Side([Quad(q)]) && BytesOf([Quad(q)]) == q && TextOf([Quad(q)]) == Dotted(q)
  {
    hide Dotted;
    assert [Quad(q)][1..] == [] && q + [] == q;
  }

  lemma FfffQuadSide(q: seq<byte>)
    requires |q| == 4
    ensures
      var r := [Group("ffff"), Quad(q)];
      Side(r) && BytesOf(r) == [255, 255] + q && TextOf(r) == "ffff" + ":" + Dotted(q)
  {
    hide Dotted, NumberOf, WordBytes, IsGroup;
    QuadSide(q);
    FfffGroup();
    assert [Group("ffff"), Quad(q)][1..] == [Quad(q)];
  }

  lemma FfffBytes(a: seq<byte>)
    requires |a| == 16 && WordsOf(a)[5] == 0xffff
    ensures a[10..] == [255, 255] + a[12..]
  {
    assert WordBytes(WordsOf(a)[5]) == [a[10], a[11]];
  }

  lemma EmbeddedDenotes(a: seq<byte>, l: int)
    requires |a| == 16 && ZeroRun(WordsOf(a), 0, l) && Embeds4(WordsOf(a), 0, l)
    ensures Denotes(ShortText(a, 0, l), a)
  {
    hide WordAt, Zeros, Dotted, NumberOf, WordBytes, IsGroup, BytesOf, TextOf, Side;
    var q := a[12..];
    ZeroBytes(a, 0, l);
    NoText();
    NoBytes();
    if l == 6 {
      QuadSide(q);
      assert a == [] + Zeros(12) + q;
      assert WrittenShort(ShortText(a, 0, l), a, [], [Quad(q)]);
    } else {
      FfffBytes(a);
      FfffQuadSide(q);
      var r := [Group("ffff"), Quad(q)];
      assert a == [] + Zeros(10) + BytesOf(r);
      assert ShortText(a, 0, l) == "" + "::" + TextOf(r);
      assert WrittenShort(ShortText(a, 0, l), a, [], r);
    }
  }

  lemma FullDenotes(a: seq<byte>)
    requires |a| == 16
    ensures Denotes(HexText6(WordsOf(a)), a)
  {
    hide BytesOf, TextOf, Side, AllGroups, HexGroups;
    var ws := WordsOf(a);
    HexGroupsBytes(a, 0, 8);
    assert ws[0..8] == ws && a[0..16] == a;
    assert WrittenInFull(HexText6(ws), a, HexGroups(ws));
  }

  // Parsing what was printed gives the address back, for every address.
  lemma RoundTrip6(a: seq<byte>, text: string)
    requires |a| == 16 && Prints6(a, text)
    ensures Parse6(text) == Some(a)
  {
    hide ShortText, Denotes, Parse6;
    var ws := WordsOf(a);
    if NoLongRun(ws) && text == HexText6(ws) {
      FullDenotes(a);
    } else {
      var b, l :| Compresses(a, text, b, l);
      if Embeds4(ws, b, l) {
        EmbeddedDenotes(a, l);
      } else {
        ShortDenotes(a, b, l);
      }
    }
    Parse6Exact(text, a);
  }

  // ---------------------------------------------------------------- inet_ntop6

  // The bytes in pairs, high byte first: an or into the cleared half of a word adds.
  method LoadWords(src: seq<byte>) returns (words: array<word>)
    requires |src| == 16
    ensures fresh(words) && words[..] == WordsOf(src)
  {
    words := new word[8](_ => 0);
    for i := 0 to 16
      invariant fresh(words) && words.Length == 8
      invariant forall j :: 0 <= j < i / 2 ==> words[j] == WordAt(src, j)
      invariant i % 2 == 1 ==> words[i / 2] == (src[i - 1] as int) * 256
      invariant forall j :: (i + 1) / 2 <= j < 8 ==> words[j] == 0
    {
      assert i % 2 == 1 ==> words[i / 2] + src[i] == WordAt(src, i / 2);
      words[i / 2] := (words[i / 2] as int) + (if i % 2 == 0 then 256 * (src[i] as int) else src[i]);
    }
  }

  // The best run among those that end by k; none when there is no zero before k.
  ghost predicate BestBy(ws: seq<word>, k: int, base: int, len: int)
  {
    if base == -1 then forall p, m :: ZeroRun(ws, p, m) ==> p + m > k
    else FirstLongest(ws, k, base, len)
  }

  // The run [c, k) has just ended; any run that ends by k lies before c or inside it.
  lemma RunEnded(ws: seq<word>, c: int, k: int, base: int, len: int)
    requires 0 <= c < k <= |ws| && ZeroRun(ws, c, k - c) && (c > 0 ==> ws[c - 1] != 0)
    requires BestBy(ws, c, base, len)
    ensures if base == -1 || k - c > len then BestBy(ws, k, c, k - c) else BestBy(ws, k, base, len)
  {
    forall p, m | ZeroRun(ws, p, m) && p + m <= k ensures p + m <= c || (c <= p && m <= k - c) {
      if p < c < p + m {
        assert false;
      }
    }
  }

  lemma NoRunEnds(ws: seq<word>, k: int, base: int, len: int)
    requires 0 <= k < |ws| && ws[k] != 0 && BestBy(ws, k, base, len)
    ensures BestBy(ws, k + 1, base, len)
  {
    forall p, m | ZeroRun(ws, p, m) ensures p + m != k + 1 {
    }
  }

  lemma NoRunYet(ws: seq<word>)
    ensures BestBy(ws, 0, -1, 0)
  {
  }

  // A zero run from c to i that nothing extends to the left.
  ghost predicate InRun(ws: seq<word>, c: int, len: int, i: int)
  {
    0 <= c < i <= |ws| && len == i - c && ZeroRun(ws, c, len) && (c > 0 ==> ws[c - 1] != 0)
  }

  lemma Longer(ws: seq<word>, c: int, len: int, i: int)
    requires 0 <= i < |ws| && ws[i] == 0 && len > 0
    requires if len == 1 then c == i && (i > 0 ==> ws[i - 1] != 0) else InRun(ws, c, len - 1, i)
    ensures InRun(ws, c, len, i + 1)
  {
  }

  lemma ShortRuns(ws: seq<word>, base: int, len: int)
    requires base != -1 && BestBy(ws, |ws|, base, len) && len < 2
    ensures NoLongRun(ws)
  {
  }

  lemma NoRuns(ws: seq<word>, len: int)
    requires BestBy(ws, |ws|, -1, len)
    ensures NoLongRun(ws)
  {
  }

  method FindBest(words: array<word>) returns (base: int, len: int)
    requires words.Length == 8
    ensures base == -1 ==> NoLongRun(words[..])
    ensures base != -1 ==> FirstLongest(words[..], 8, base, len) && len >= 2
  {
    hide ZeroRun, FirstLongest;
    ghost var ws := words[..];
    base, len := -1, 0;
    var curBase, curLen := -1, 0;
    NoRunYet(ws);
    for i := 0 to 8
      invariant curBase == -1 ==> BestBy(ws, i, base, len) && (i > 0 ==> ws[i - 1] != 0)
      invariant curBase != -1 ==> InRun(ws, curBase, curLen, i) && BestBy(ws, curBase, base, len)
      invariant base >= -1
    {
      if words[i] == 0 {
        if curBase == -1 {
          curBase, curLen := i, 1;
        } else {
          curLen := curLen + 1;
        }
        Longer(ws, curBase, curLen, i);
      } else {
        if curBase != -1 {
          RunEnded(ws, curBase, i, base, len);
          if base == -1 || curLen > len {
            base, len := curBase, curLen;
          }
          curBase := -1;
        }
        NoRunEnds(ws, i, base, len);
      }
    }
    if curBase != -1 {
      RunEnded(ws, curBase, 8, base, len);
      if base == -1 || curLen > len {
        base, len := curBase, curLen;
      }
    }
    if base != -1 && len < 2 {
      ShortRuns(ws, base, len);
      base := -1;
    } else if base == -1 {
      NoRuns(ws, len);
    }
  }

  // The text before word i: what precedes "::", its first colon, or also what follows it.
  function Upto(ws: seq<word>, base: int, len: int, i: nat): string
    requires i <= |ws| && (base != -1 ==> 0 <= base && 2 <= len && base + len <= |ws|)
  {
    if base == -1 || i <= base then HexText6(ws[..i])
    else if i <= base + len then HexText6(ws[..base]) + ":"
    else HexText6(ws[..base]) + "::" + HexText6(ws[base + len..i])
  }

  lemma {:induction false} PiecesAppend(ps: seq<Piece>, p: Piece)
    ensures TextOf(ps + [p]) == if ps == [] then PieceText(p) else TextOf(ps) + ":" + PieceText(p)
  {
    hide PieceText;
    if ps == [] {
      assert ps + [p] == [p];
    } else {
      assert (ps + [p])[1..] == ps[1..] + [p];
      PiecesAppend(ps[1..], p);
    }
  }

  lemma {:induction false} GroupsAppend(ws: seq<word>, w: word)
    ensures HexGroups(ws + [w]) == HexGroups(ws) + [Group(Hex(w))]
  {
    hide Hex;
    if ws == [] {
      assert ws + [w] == [w] && [w][1..] == [];
    } else {
      assert (ws + [w])[1..] == ws[1..] + [w];
      GroupsAppend(ws[1..], w);
    }
  }

  lemma TextAppend(ws: seq<word>, w: word)
    ensures HexText6(ws + [w]) == if ws == [] then Hex(w) else HexText6(ws) + ":" + Hex(w)
  {
    hide Hex, TextOf;
    GroupsAppend(ws, w);
    PiecesAppend(HexGroups(ws), Group(Hex(w)));
  }

  lemma NoHexText()
    ensures HexText6([]) == ""
  {
  }

  lemma UptoStep(ws: seq<word>, base: int, len: int, i: nat)
    requires i < |ws| && (base != -1 ==> 0 <= base && 2 <= len && base + len <= |ws|)
    ensures Upto(ws, base, len, i + 1) ==
      if base != -1 && base <= i < base + len
        then (if i == base then Upto(ws, base, len, i) + ":" else Upto(ws, base, len, i))
      else Upto(ws, base, len, i) + (if i != 0 then ":" else "") + Hex(ws[i])
  {
    hide Hex, HexText6;
    if base == -1 || i < base {
      assert ws[..i + 1] == ws[..i] + [ws[i]];
      TextAppend(ws[..i], ws[i]);
      NoHexText();
    } else if i >= base + len {
      assert ws[base + len..i + 1] == ws[base + len..i] + [ws[i]];
      TextAppend(ws[base + len..i], ws[i]);
      NoHexText();
    }
  }

  lemma {:induction false} TextLength(ws: seq<word>)
    ensures |HexText6(ws)| <= 5 * |ws|
    ensures ws != [] ==> |HexText6(ws)| < 5 * |ws|
  {
    if ws != [] {
      HexCanonical(ws[0]);
      TextLength(ws[1..]);
      assert HexGroups(ws)[1..] == HexGroups(ws[1..]);
    }
  }

  lemma UptoLength(ws: seq<word>, base: int, len: int, i: nat)
    requires i <= |ws| && (base != -1 ==> 0 <= base && 2 <= len && base + len <= |ws|)
    ensures |Upto(ws, base, len, i)| <= 5 * i
  {
    hide HexText6;
    if base == -1 || i <= base {
      TextLength(ws[..i]);
    } else {
      TextLength(ws[..base]);
      if i > base + len {
        TextLength(ws[base + len..i]);
      }
    }
  }

  // Characters go into the buffer at tp; there is room for them and a terminator.
  method Put(tmp: array<char>, tp: nat, text: string) returns (end: nat)
    requires tp + |text| < tmp.Length
    modifies tmp
    ensures end == tp + |text| && tmp[..end] == old(tmp[..tp]) + text
  {
    for k := 0 to |text|
      invariant tmp[..tp + k] == old(tmp[..tp]) + text[..k]
    {
      tmp[tp + k] := text[k];
      assert tmp[..tp + k + 1] == tmp[..tp + k] + [text[k]];
    }
    end := tp + |text|;
  }

  lemma BestInside(ws: seq<word>, base: int, len: int)
    requires |ws| == 8 && (base != -1 ==> FirstLongest(ws, 8, base, len))
    ensures base != -1 ==> 0 <= base && 0 < len && base + len <= 8 && ZeroRun(ws, base, len)
  {
  }

  lemma UptoNothing(ws: seq<word>, base: int, len: int)
    requires base != -1 ==> 0 <= base && 2 <= len && base + len <= |ws|
    ensures Upto(ws, base, len, 0) == ""
  {
  }

  // Where the printer does not stop at word 6 there is no IPv4 address inside.
  lemma NoEmbedding(ws: seq<word>, base: int, len: int, i: nat)
    requires |ws| == 8 && i < 8 && (base != -1 ==> 0 <= base && 0 < len && base + len <= 8)
    requires i == 6 ==>
      (base != -1 && base <= i < base + len) || !(base == 0 && (len == 6 || (len == 5 && ws[5] == 0xffff)))
    ensures i == 6 ==> base == -1 || !Embeds4(ws, base, len)
  {
  }

  lemma UptoEmbedded(ws: seq<word>, len: int)
    requires |ws| == 8 && 2 <= len <= 6 && Embeds4(ws, 0, len)
    ensures Upto(ws, 0, len, 6) == if len == 5 then "::ffff" else ":"
  {
    NoHexText();
    if len == 5 {
      FfffGroup();
      assert ws[5..6] == [] + [0xffff];
      TextAppend([], 0xffff);
    }
  }

  lemma EmbeddedText(src: seq<byte>, len: int)
    requires |src| == 16 && 2 <= len <= 8 && (len == 6 || (len == 5 && WordsOf(src)[5] == 0xffff))
    ensures Embeds4(WordsOf(src), 0, len) && 1 <= |Dotted(src[12..])| <= 15 && |Upto(WordsOf(src), 0, len, 6)| <= 6
    ensures Upto(WordsOf(src), 0, len, 6) + ":" + Dotted(src[12..]) == ShortText(src, 0, len)
  {
    hide WordAt, Dotted, HexText6, WordsOf, Upto;
    DottedLength(src[12..]);
    UptoEmbedded(WordsOf(src), len);
  }

  lemma PrintedText(src: seq<byte>, base: int, len: int, text: string)
    requires |src| == 16
    requires var ws := WordsOf(src);
      && (base == -1 ==> NoLongRun(ws))
        && (base != -1 ==> FirstLongest(ws, 8, base, len) && len >= 2 && 0 <= base && base + len <= 8)
      && text == (if base != -1 && Embeds4(ws, base, len) then ShortText(src, base, len)
                  else Upto(ws, base, len, 8) + (if base != -1 && base + len == 8 then ":" else ""))
    ensures Prints6(src, text)
  {
    hide WordAt, HexText6, FirstLongest, NoLongRun, Dotted;
    var ws := WordsOf(src);
    NoHexText();
    if base == -1 {
      assert ws[..8] == ws;
    } else {
      assert ws[base + len..8] == ws[base + len..];
      assert base + len == 8 ==> ws[base + len..] == [];
      var left := HexText6(ws[..base]);
      assert left + ":" + ":" == left + "::" == left + "::" + "";
      assert text == ShortText(src, base, len);
      assert Compresses(src, text, base, len);
    }
  }

  method Ntop6(src: seq<byte>, size: nat) returns (r: Printed)
    requires |src| == 16
    ensures exists text :: Prints6(src, text) && |text| < ADDRSTRLEN6 && r == if |text| < size then Text(text)
      else NoSpace
  {
    hide WordsOf, Upto, Hex, Dotted, FirstLongest, NoLongRun, ShortText, Prints6, ZeroRun, NumberOf, Embeds4, HexText,
      Decimal;
    var words := LoadWords(src);
    ghost var ws := words[..];
    var base, len := FindBest(words);
    BestInside(ws, base, len);
    var tmp := new char[ADDRSTRLEN6];
    var tp := 0;
    UptoNothing(ws, base, len);
    var i := 0;
    while i < 8
      invariant i <= 8 && 0 <= tp <= 5 * i && tmp[..tp] == Upto(ws, base, len, i)
      invariant words[..] == ws
      invariant i > 6 ==> base == -1 || !Embeds4(ws, base, len)
      decreases 8 - i
    {
      ghost var before := Upto(ws, base, len, i);
      UptoStep(ws, base, len, i);
      UptoLength(ws, base, len, i + 1);
      if base != -1 && i >= base && i < base + len {
        NoEmbedding(ws, base, len, i);
        if i == base {
          tp := Put(tmp, tp, ":");
        }
        i := i + 1;
        continue;
      }
      if i != 0 {
        tp := Put(tmp, tp, ":");
      }
      assert tmp[..tp] == before + (if i != 0 then ":" else "");
      // the source also tests for a run of seven, but word 6 lies inside such a run and was skipped
      if i == 6 && base == 0 && (len == 6 || (len == 5 && words[5] == 0xffff)) {
        EmbeddedText(src, len);
        var quad := Ntop4(src[12..], ADDRSTRLEN6 - tp);
        assert quad.Text?;
        tp := Put(tmp, tp, quad.text);
        assert tmp[..tp] == ShortText(src, 0, len);
        break;
      }
      NoEmbedding(ws, base, len, i);
      HexCanonical(words[i]);
      tp := Put(tmp, tp, Hex(words[i]));
      i := i + 1;
    }
    if base != -1 && base + len == 8 {
      tp := Put(tmp, tp, ":");
    }
    PrintedText(src, base, len, tmp[..tp]);
    if tp + 1 > size {
      return NoSpace;
    }
    return Text(tmp[..tp]);
  }

  // ---------------------------------------------------------------- zones

  lemma PrintedLength(a: seq<byte>, text: string)
    requires |a| == 16 && Prints6(a, text)
    ensures |text| < ADDRSTRLEN6
  {
    hide HexText6, Dotted, WordAt;
    var ws := WordsOf(a);
    if NoLongRun(ws) && text == HexText6(ws) {
      TextLength(ws);
    } else {
      var b, l :| Compresses(a, text, b, l);
      DottedLength(a[12..]);
      TextLength(ws[..b]);
      TextLength(ws[b + l..]);
    }
  }

  lemma {:induction false} Scan4Plain(rest: string, done: seq<byte>, cur: Option<byte>)
    requires Scan4(rest, done, cur).Some?
    ensures '%' !in rest
    decreases |rest|
  {
    if rest != "" {
      assert rest == [rest[0]] + rest[1..];
      if DecValue(rest[0]).Some? {
        Scan4Plain(rest[1..], done, Some((if cur.Some? then cur.value else 0) * 10 + DecValue(rest[0]).value));
      } else {
        Scan4Plain(rest[1..], done + [cur.value], None);
      }
    }
  }

  lemma {:induction false} Scan6Plain(rest: string, st: Scanned)
    requires ScannedOk(st) && Scan6(rest, st).Some?
    ensures '%' !in rest
    decreases |rest|
  {
    hide NumberOf, WordBytes;
    if rest != "" {
      assert rest == [rest[0]] + rest[1..];
      if HexValue(rest[0]).Some? {
        MeetDigit(rest, st);
        Scan6Plain(rest[1..], st.(tok := st.tok + [rest[0]]));
      } else if rest[0] == ':' {
        MeetColon(rest, st);
        Scan6Plain(rest[1..],
          if st.tok == "" then st.(colon := Some(|st.bytes|))
          else Scanned(st.bytes + WordBytes(NumberOf(st.tok)), st.colon, ""));
      } else {
        Scan4Plain(st.tok + rest, [], None);
        assert forall c :: c in rest ==> c in st.tok + rest;
      }
    }
  }

  // Where the zone begins: the first '%', or the end.
  function ZoneAt(s: string): (p: nat)
    ensures p <= |s|
  {
    if s == "" || s[0] == '%' then 0 else 1 + ZoneAt(s[1..])
  }

  lemma {:induction false} ZoneIsFirst(s: string, p: nat)
    requires p <= |s| && (forall k :: 0 <= k < p ==> s[k] != '%') && (p < |s| ==> s[p] == '%')
    ensures ZoneAt(s) == p
    decreases p
  {
    if p > 0 {
      ZoneIsFirst(s[1..], p - 1);
    }
  }

  // uv_inet_pton for AF_INET6: what follows a '%' is not read.
  function ParseZoned(s: string): Option<seq<byte>>
  {
    if ZoneAt(s) == |s| then Parse6(s)
    else if ZoneAt(s) > ADDRSTRLEN6 - 1 then None
    else Parse6(s[..ZoneAt(s)])
  }

  method UvInetPton6(src: CString) returns (r: Option<seq<byte>>)
    ensures r == ParseZoned(src)
  {
    hide Parse6, Answers6;
    var p: nat := 0;
    while CharAt(src, p) != '\0' && CharAt(src, p) != '%'
      invariant p <= |src| && forall k :: 0 <= k < p ==> src[k] != '%'
      decreases |src| - p
    {
      p := p + 1;
    }
    ZoneIsFirst(src, p);
    if p < |src| {
      if p > ADDRSTRLEN6 - 1 {
        return None;
      }
      r := Pton6(src[..p]);
    } else {
      r := Pton6(src);
    }
  }

  lemma ParsedPlain(s: string)
    requires Parse6(s).Some?
    ensures '%' !in s
  {
    hide Scan6, Finish;
    var body := if s != "" && s[0] == ':' then s[1..] else s;
    Scan6Plain(body, START);
    assert s == if body == s then body else [s[0]] + body;
  }

  // A printed address with any zone behind it is read back.
  lemma ZoneRoundTrip(a: seq<byte>, text: string, zone: string)
    requires |a| == 16 && Prints6(a, text)
    ensures ParseZoned(text) == Some(a) && ParseZoned(text + "%" + zone) == Some(a)
  {
    hide Prints6;
    RoundTrip6(a, text);
    PrintedLength(a, text);
    ParsedPlain(text);
    hide Parse6;
    var s := text + "%" + zone;
    ZoneIsFirst(text, |text|);
    ZoneIsFirst(s, |text|);
    assert s[..|text|] == text;
  }

  // ---------------------------------------------------------------- how long a text can be

  lemma {:induction false} PiecesLength(ps: seq<Piece>)
    requires Side(ps) && ps != []
    ensures 2 * |TextOf(ps)| <= 5 * |BytesOf(ps)| + 10
    ensures |BytesOf(ps)| % 2 == 0
    decreases |ps|
  {
    hide NumberOf, WordBytes, HexText, Dotted;
    if ps[0].Quad? {
      DottedLength(ps[0].octets);
      assert ps[1..] == [] && BytesOf(ps) == PieceBytes(ps[0]);
    } else if |ps| > 1 {
      PiecesLength(ps[1..]);
    } else {
      assert ps[1..] == [] && BytesOf(ps) == PieceBytes(ps[0]) + BytesOf([]);
    }
  }

  lemma {:induction false} GroupsLength(ps: seq<Piece>)
    requires Side(ps) && AllGroups(ps) && ps != []
    ensures 2 * |TextOf(ps)| <= 5 * |BytesOf(ps)| - 2 && |BytesOf(ps)| % 2 == 0
    decreases |ps|
  {
    hide NumberOf, WordBytes, HexText, Dotted;
    if |ps| > 1 {
      GroupsLength(ps[1..]);
    } else {
      assert ps[1..] == [] && BytesOf(ps) == PieceBytes(ps[0]) + BytesOf([]);
    }
  }

  lemma SidesLength(l: seq<Piece>, r: seq<Piece>)
    requires Side(l) && Side(r) && AllGroups(l) && |BytesOf(l)| + |BytesOf(r)| < 16
    ensures |TextOf(l)| + |TextOf(r)| <= 43
  {
    if l != [] {
      GroupsLength(l);
    }
    if r != [] {
      PiecesLength(r);
    }
  }

  // No text of an address fills the buffer for one,
  lemma DenotedLength(s: string, a: seq<byte>)
    requires Denotes(s, a)
    ensures |s| <= ADDRSTRLEN6 - 1
  {
    assert BytesOf([]) == [];
    hide TextOf, BytesOf, Side, AllGroups;
    if ps :| WrittenInFull(s, a, ps) {
      if ps != [] {
        PiecesLength(ps);
      }
    } else {
      var l, r :| WrittenShort(s, a, l, r);
      SidesLength(l, r);
    }
  }

  // ffff:ffff:ffff:ffff:ffff:ffff:255.255.255.255, from its n-th last group on.
  function LongText(n: nat): (s: string)
    ensures |s| == 5 * n + 15
  {
    if n == 0 then "255.255.255.255" else "ffff" + ":" + LongText(n - 1)
  }

  lemma Decimal255()
    ensures Decimal(255) == "255"
  {
    assert Decimal(2) == "2";
    assert Decimal(25) == Decimal(2) + [Digit(5)];
    assert Decimal(255) == Decimal(25) + [Digit(5)];
  }

  lemma Quad255()
    ensures Dotted([255, 255, 255, 255]) == "255.255.255.255"
  {
    var b: seq<byte> := [255, 255, 255, 255];
    hide Decimal;
    Decimal255();
    assert Dotted([255]) == "255";
    assert [255, 255][1..] == [255] && Dotted([255, 255]) == "255.255";
    assert [255, 255, 255][1..] == [255, 255] && Dotted([255, 255, 255]) == "255.255.255";
    assert b[1..] == [255, 255, 255];
  }

  function LongPieces(n: nat): (ps: seq<Piece>)
    ensures |ps| == n + 1
  {
    if n == 0 then [Quad([255, 255, 255, 255])] else [Group("ffff")] + LongPieces(n - 1)
  }

  lemma LongRead(n: nat)
    ensures var ps := LongPieces(n); Side(ps) && |BytesOf(ps)| == 2 * n + 4 && TextOf(ps) == LongText(n)
  {
    Quad255();
    hide Dotted, NumberOf;
    var ps := LongPieces(n);
    if n == 0 {
      assert ps[1..] == [] && BytesOf(ps) == PieceBytes(ps[0]) + BytesOf([]);
    } else {
      LongRead(n - 1);
      assert ps[1..] == LongPieces(n - 1) && ps[0] == Group("ffff");
    }
  }

  // and some leave room for nothing but its end.
  lemma LongestDenotes()
    ensures |LongText(6)| == ADDRSTRLEN6 - 1 && exists a: seq<byte> :: Denotes(LongText(6), a)
    ensures |Dotted([255, 255, 255, 255])| == ADDRSTRLEN4 - 1
  {
    Quad255();
    hide Dotted, TextOf, BytesOf, LongText, LongPieces;
    LongRead(6);
    var ps := LongPieces(6);
    assert WrittenInFull(LongText(6), BytesOf(ps), ps);
    assert Denotes(LongText(6), BytesOf(ps));
  }

  // With or without a zone an address is read as its text alone: the buffer is never too short.
  lemma ZoneExact(s: string, a: seq<byte>)
    ensures ParseZoned(s) == Some(a) <==> Denotes(s[..ZoneAt(s)], a)
  {
    hide Parse6, Denotes;
    var text := s[..ZoneAt(s)];
    Parse6Exact(text, a);
    if ZoneAt(s) == |s| {
      assert text == s;
    } else if Denotes(text, a) {
      DenotedLength(text, a);
    }
  }
}
