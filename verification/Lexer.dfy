/** The lexer (crates/eronom-frontend/src/lexer.rs): tokens are handed out one at a time, and a
    string literal with expressions in braces becomes a sum, its tokens waiting in a buffer. */
module Lexer {
  import opened Options

  // Signs and keywords are named by their text; "&&", "||" and "fn" by that of their longer form.
  // A number is kept as its text.
  datatype TokenType =
    | Sign(text: string)
    | Keyword(word: string)
    | Identifier(name: string)
    | Str(chars: string)
    | Number(digits: string)
    | Eof

  datatype Token = Token(ty: TokenType, line: nat, col: nat)

  const PLUS := Sign("+")

  // ---------------------------------------------------------------- characters

  predicate IsSpace(c: char)
  {
    || c == ' ' || '\t' <= c <= '\r' || c == '\U{85}' || c == '\U{A0}' || c == '\U{1680}'
      || '\U{2000}' <= c <= '\U{200A}'
    || c == '\U{2028}' || c == '\U{2029}' || c == '\U{202F}' || c == '\U{205F}' || c == '\U{3000}'
  }

  predicate IsBlank(c: char) { IsSpace(c) || c == ';' }

  predicate IsDigit(c: char) { '0' <= c <= '9' }

  predicate IsNameStart(c: char) { 'a' <= c <= 'z' || 'A' <= c <= 'Z' || c == '_' }

  predicate IsNameChar(c: char) { IsNameStart(c) || IsDigit(c) }

  predicate IsQuote(c: char) { c == '"' || c == '\'' }

  predicate IsSign(c: char)
  {
    || c == '(' || c == ')' || c == '{' || c == '}' || c == '[' || c == ']' || c == ',' || c == ':' || c == '@'
      || c == '-'
    || c == '+' || c == '*' || c == '/' || c == '%' || c == '&' || c == '|' || c == '^' || c == '~' || c == '?'
      || c == '.'
    || c == '!' || c == '=' || c == '<' || c == '>'
  }

  // The characters that make a two-character sign with c.
  function Seconds(c: char): string
  {
    if c == '-' then "-="
    else if c == '+' then "+="
    else if c == '*' || c == '/' || c == '%' || c == '!' then "="
    else if c == '&' then "&"
    else if c == '|' then "|"
    else if c == '.' then "."
    else if c == '=' then "=>"
    else if c == '<' then "<="
    else if c == '>' then ">="
    else ""
  }

  function SignOf(text: string): TokenType
  {
    if text == "&&" then Keyword("and") else if text == "||" then Keyword("or") else Sign(text)
  }

  predicate IsKeyword(text: string)
  {
    text in { "and", "else", "false", "for", "if", "null", "or", "print", "return", "true", "let", "const", "in",
      "import", "export",
      "from", "fn", "function", "struct", "embed", "interface", "concurrent", "spawn", "on", "while", "break",
        "continue",
      "try", "catch", "finally", "throw", "switch", "case", "default", "match", "typeof", "type", "as", "is", "enum",
      "async", "sync", "await", "new", "_" }
  }

  function WordOf(text: string): TokenType
  {
    if !IsKeyword(text) then Identifier(text) else Keyword(if text == "fn" then "function" else text)
  }

  predicate IsEscape(c: char)
  {
    c == '\\' || c == '{' || c == '}' || c == 'n' || c == 't' || c == 'r' || c == '"' || c == '\''
  }

  function Unescape(c: char): char
  {
    if c == 'n' then '\n' else if c == 't' then '\t' else if c == 'r' then '\r' else c
  }

  // ---------------------------------------------------------------- what a text means

  // The length of a run of name characters.
  function NameLength(s: string): (n: nat)
    ensures n <= |s|
  {
    if s != "" && IsNameChar(s[0]) then 1 + NameLength(s[1..]) else 0
  }

  // Digits and dots, up to two dots in a row.
  function NumberLength(s: string): (n: nat)
    ensures n <= |s|
  {
    if s == "" then 0
    else if IsDigit(s[0]) || (s[0] == '.' && !(|s| > 1 && s[1] == '.')) then 1 + NumberLength(s[1..])
    else 0
  }

  function IndexOf(c: char, s: string): (n: nat)
    ensures n <= |s| && c !in s[..n] && (n < |s| ==> s[n] == c)
  {
    if s == "" || s[0] == c then 0 else 1 + IndexOf(c, s[1..])
  }

  predicate StartsComment(s: string) { |s| > 1 && s[0] == '/' && s[1] == '/' }

  // What is left after blanks and comments.
  function SkipBlanks(s: string): (r: string)
    ensures |r| <= |s| && (r != "" ==> !IsBlank(r[0]) && !StartsComment(r))
    decreases |s|
  {
    if s == "" then s
    else if IsBlank(s[0]) then SkipBlanks(s[1..])
    else if StartsComment(s) then SkipBlanks(s[1..][IndexOf('\n', s[1..])..])
    else s
  }

  datatype Scan = Scan(types: seq<TokenType>, rest: string, complete: bool)

  datatype Quoted = Quoted(text: string, types: seq<TokenType>, rest: string, complete: bool)

  // The ways in which the text of a literal begins.
  datatype Head =
    | Nothing
    | Plain(c: char, more: string)
    | Escape(c: char, more: string)
    | Closing(more: string)
    | Braced(expr: string, more: string)
    | BracedOpen(expr: string)

  // An escape is a backslash before a character of the list; another backslash stands for itself.
  // An expression runs to the first closing brace, or to the end of the text.
  function HeadOf(s: string, quote: char): (h: Head)
    ensures h.Nothing? <==> s == ""
    ensures h.Plain? || h.Escape? || h.Closing? || h.Braced? ==> |h.more| < |s|
    ensures h.Braced? || h.BracedOpen? ==> |h.expr| < |s|
  {
    if s == "" then Nothing
    else if s[0] == '\\' && |s| > 1 && IsEscape(s[1]) then Escape(s[1], s[2..])
    else if s[0] == quote then Closing(s[1..])
    else if s[0] == '{' then
      var n := IndexOf('}', s[1..]);
      if n == |s| - 1 then BracedOpen(s[1..]) else Braced(s[1..][..n], s[1..][n + 1..])
    else Plain(s[0], s[1..])
  }

  // A last chunk of nothing is dropped with its plus sign.
  function Finish(text: string, types: seq<TokenType>): (r: seq<TokenType>)
    ensures |types| != 1 ==> r != []
  {
    if types == [] then [Str(text)]
    else if text == "" then types[..|types| - 1]
    else types + [Str(text)]
  }

  // A token that is no literal; Eof for a character that starts none.
  function ReadPlain(s: string): (r: Scan)
    requires s != ""
    ensures |r.rest| < |s| && |r.types| == 1
  {
    var c := s[0];
    if IsSign(c) then
      var n := if |s| > 1 && s[1] in Seconds(c) then 2 else 1;
      Scan([SignOf(s[..n])], s[n..], true)
    else if IsDigit(c) then
      var n := 1 + NumberLength(s[1..]);
      Scan([Number(s[..n])], s[n..], true)
    else if IsNameStart(c) then
      var n := 1 + NameLength(s[1..]);
      Scan([WordOf(s[..n])], s[n..], true)
    else Scan([Eof], s[1..], false)
  }

  // What an expression adds to the tokens.
  function Opened(text: string, types: seq<TokenType>, e: string): seq<TokenType>
    decreases |e|, 4
  {
    types + [Str(text), PLUS] + Alone(e) + [PLUS]
  }

  // A literal after its quote: the text since the last expression and the tokens up to there.  It
  // is complete when its closing quote was found.
  function ReadQuoted(s: string, quote: char, text: string, types: seq<TokenType>): (r: Quoted)
    ensures |r.rest| <= |s|
    decreases |s|, 0
  {
    match HeadOf(s, quote)
    case Nothing => Quoted(text, types, "", false)
    case Plain(c, more) => ReadQuoted(more, quote, text + [c], types)
    case Escape(c, more) => ReadQuoted(more, quote, text + [Unescape(c)], types)
    case Closing(more) => Quoted(text, types, more, true)
    case Braced(e, more) => ReadQuoted(more, quote, "", Opened(text, types, e))
    case BracedOpen(e) => Quoted("", Opened(text, types, e), "", false)
  }

  function ReadOne(s: string): (r: Scan)
    requires s != ""
    ensures |r.rest| < |s|
    decreases |s|, 1
  {
    if IsQuote(s[0]) then
      var q := ReadQuoted(s[1..], s[0], "", []);
      Scan(Finish(q.text, q.types), q.rest, q.complete)
    else ReadPlain(s)
  }

  // The types of all the tokens of a text, through the first Eof.
  function Lexed(s: string): (r: seq<TokenType>)
    decreases |s|, 2
  {
    var t := SkipBlanks(s);
    if t == "" then [Eof]
    else
      var one := ReadOne(t);
      if one.types == [Eof] then [Eof] else one.types + Lexed(one.rest)
  }

  // The tokens before the Eof.
  function Alone(s: string): (r: seq<TokenType>)
    decreases |s|, 3
  {
    var all := Lexed(s);
    if all == [] then [] else all[..|all| - 1]
  }

  // ---------------------------------------------------------------- how a text begins

  lemma CharHead(c: char, s: string, quote: char)
    requires c != '\\' && c != quote && c != '{'
    ensures HeadOf([c] + s, quote) == Plain(c, s)
  {
    hide IsEscape;
    assert ([c] + s)[1..] == s;
  }

  lemma EscapeHead(c: char, s: string, quote: char)
    requires IsEscape(c)
    ensures HeadOf(['\\', c] + s, quote) == Escape(c, s)
  {
    hide IsEscape;
    assert (['\\', c] + s)[2..] == s;
  }

  lemma ClosingHead(s: string, quote: char)
    requires IsQuote(quote)
    ensures HeadOf([quote] + s, quote) == Closing(s)
  {
    hide IsEscape;
    assert ([quote] + s)[1..] == s;
  }

  lemma {:induction false} IndexUnique(c: char, s: string, n: nat)
    requires n < |s| && s[n] == c && c !in s[..n]
    ensures IndexOf(c, s) == n
    decreases n
  {
    if n > 0 {
      assert s[..n][0] == s[0];
      assert s[1..][..n - 1] == s[..n][1..];
      IndexUnique(c, s[1..], n - 1);
    }
  }

  lemma IndexLocal(c: char, s: string, r: string)
    requires IndexOf(c, s) < |s|
    ensures IndexOf(c, s + r) == IndexOf(c, s)
  {
    var n := IndexOf(c, s);
    assert (s + r)[..n] == s[..n];
    IndexUnique(c, s + r, n);
  }

  lemma BracedHead(e: string, s: string, quote: char)
    requires IsQuote(quote) && '}' !in e
    ensures HeadOf("{" + e + "}" + s, quote) == Braced(e, s)
  {
    hide IsEscape;
    var t := "{" + e + "}" + s;
    var u := e + "}" + s;
    assert t[1..] == u && u[..|e|] == e && u[|e| + 1..] == s;
    IndexUnique('}', u, |e|);
  }

  // A head with more text behind it.
  function Longer(h: Head, r: string): Head
  {
    match h
    case Plain(c, more) => Plain(c, more + r)
    case Escape(c, more) => Escape(c, more + r)
    case Closing(more) => Closing(more + r)
    case Braced(e, more) => Braced(e, more + r)
    case _ => h
  }

  lemma SpaceEscapesNot()
    ensures !IsEscape(' ')
  {
  }

  // A blank and more text do not change how a text begins, unless an expression is open.
  lemma HeadLocal(s: string, quote: char, r: string)
    requires IsQuote(quote) && s != "" && !HeadOf(s, quote).BracedOpen? && r != "" && r[0] == ' '
    ensures HeadOf(s + r, quote) == Longer(HeadOf(s, quote), r)
  {
    SpaceEscapesNot();
    hide IsEscape;
    var t := s + r;
    assert t[1..] == s[1..] + r;
    assert |s| == 1 ==> t[1] == ' ';
    if HeadOf(s, quote).Escape? {
      assert t[2..] == s[2..] + r;
    } else if HeadOf(s, quote).Braced? {
      var n := IndexOf('}', s[1..]);
      IndexLocal('}', s[1..], r);
      assert t[1..][..n] == s[1..][..n] && t[1..][n + 1..] == s[1..][n + 1..] + r;
    }
  }

  // ---------------------------------------------------------------- exactly one end

  // The first step of lexing.
  lemma LexedStep(s: string)
    ensures var t := SkipBlanks(s);
      Lexed(s) == if t == "" || ReadOne(t).types == [Eof] then [Eof] else ReadOne(t).types + Lexed(ReadOne(t).rest)
  {
    hide SkipBlanks, ReadOne;
  }

  lemma {:induction false} QuotedHasNoEof(s: string, quote: char, text: string, types: seq<TokenType>)
    requires Eof !in types && (types == [] || |types| > 2)
    ensures var all := ReadQuoted(s, quote, text, types).types; Eof !in all && (all == [] || |all| > 2)
    decreases |s|, 0
  {
    hide HeadOf, Unescape;
    var h := HeadOf(s, quote);
    if h.Braced? || h.BracedOpen? {
      EndsOnce(h.expr);
      assert Eof !in Opened(text, types, h.expr);
    }
    match h
    case Plain(c, more) => QuotedHasNoEof(more, quote, text + [c], types);
    case Escape(c, more) => QuotedHasNoEof(more, quote, text + [Unescape(c)], types);
    case Braced(e, more) => QuotedHasNoEof(more, quote, "", Opened(text, types, e));
    case _ =>
  }

  lemma OneHasNoEof(s: string)
    requires s != ""
    ensures ReadOne(s).types != [] && (ReadOne(s).types == [Eof] || Eof !in ReadOne(s).types)
    ensures ReadOne(s).types == [Eof] ==> !ReadOne(s).complete
    decreases |s|, 1
  {
    hide ReadQuoted, IsSign, IsKeyword, Seconds;
    if IsQuote(s[0]) {
      QuotedHasNoEof(s[1..], s[0], "", []);
      var q := ReadQuoted(s[1..], s[0], "", []);
      assert Eof !in Finish(q.text, q.types);
    }
  }

  // Every text lexes to one Eof, at the end.
  lemma {:induction false} EndsOnce(s: string)
    ensures Lexed(s) == Alone(s) + [Eof] && Eof !in Alone(s)
    decreases |s|, 2
  {
    hide SkipBlanks, ReadOne;
    LexedStep(s);
    var t := SkipBlanks(s);
    if t != "" {
      OneHasNoEof(t);
      var one := ReadOne(t);
      if one.types != [Eof] {
        EndsOnce(one.rest);
        assert Lexed(s) == (one.types + Alone(one.rest)) + [Eof];
      }
    }
  }

  lemma AloneStep(s: string)
    requires SkipBlanks(s) != "" && ReadOne(SkipBlanks(s)).complete
    ensures
      var one := ReadOne(SkipBlanks(s));
      Alone(s) == one.types + Alone(one.rest) && Lexed(s) == one.types + Lexed(one.rest)
  {
    hide SkipBlanks, ReadOne, Lexed;
    LexedStep(s);
    var one := ReadOne(SkipBlanks(s));
    OneHasNoEof(SkipBlanks(s));
    EndsOnce(s);
    EndsOnce(one.rest);
  }

  // ---------------------------------------------------------------- a literal is a sum

  // An expression in a literal and the chunk of characters behind it.
  datatype Part = Part(expr: string, chunk: string)

  predicate NeedsEscape(c: char, quote: char) { c == quote || c == '\\' || c == '{' || c == '}' }

  function Escaped(quote: char, s: string): string
  {
    if s == "" then "" else if NeedsEscape(s[0], quote) then ['\\', s[0]] + Escaped(quote, s[1..])
      else [s[0]] + Escaped(quote, s[1..])
  }

  function PartsText(quote: char, parts: seq<Part>): string
  {
    if parts == [] then ""
    else "{" + parts[0].expr + "}" + (Escaped(quote, parts[0].chunk) + PartsText(quote, parts[1..]))
  }

  function LiteralText(quote: char, first: string, parts: seq<Part>): string
  {
    [quote] + Escaped(quote, first) + PartsText(quote, parts) + [quote]
  }

  function PlainText(quote: char, chunk: string): string
  {
    [quote] + Escaped(quote, chunk) + [quote]
  }

  // An empty last chunk is no summand.
  predicate Dropped(parts: seq<Part>) { |parts| == 1 && parts[0].chunk == "" }

  // The summands after the first.
  function SumText(quote: char, parts: seq<Part>): string
  {
    if parts == [] then ""
    else if Dropped(parts) then " + " + parts[0].expr + " "
    else " + " + parts[0].expr + " + " + PlainText(quote, parts[0].chunk) + SumText(quote, parts[1..])
  }

  function SumTypes(parts: seq<Part>): seq<TokenType>
  {
    if parts == [] then []
    else if Dropped(parts) then [PLUS] + Alone(parts[0].expr)
    else [PLUS] + Alone(parts[0].expr) + [PLUS, Str(parts[0].chunk)] + SumTypes(parts[1..])
  }

  predicate Braceless(parts: seq<Part>)
  {
    forall i :: 0 <= i < |parts| ==> '}' !in parts[i].expr
  }

  lemma EscapedStep(quote: char, c: char, rest: string, text: string, types: seq<TokenType>)
    requires IsQuote(quote)
    ensures ReadQuoted((if NeedsEscape(c, quote) then ['\\', c] else [c]) + rest, quote, text, types)
         == ReadQuoted(rest, quote, text + [c], types)
  {
    hide HeadOf, Opened;
    if NeedsEscape(c, quote) {
      EscapeHead(c, rest, quote);
    } else {
      CharHead(c, rest, quote);
    }
  }

  // Escaped characters are read back, whatever follows.
  lemma {:induction false} EscapedRead(quote: char, chunk: string, rest: string, text: string, types: seq<TokenType>)
    requires IsQuote(quote)
    ensures ReadQuoted(Escaped(quote, chunk) + rest, quote, text, types) == ReadQuoted(rest, quote, text + chunk, types)
    decreases |chunk|
  {
    hide ReadQuoted, NeedsEscape;
    if chunk == "" {
      assert Escaped(quote, chunk) + rest == rest && text + chunk == text;
    } else {
      var c := chunk[0];
      var more := Escaped(quote, chunk[1..]) + rest;
      assert Escaped(quote, chunk) + rest == (if NeedsEscape(c, quote) then ['\\', c] else [c]) + more;
      EscapedStep(quote, c, more, text, types);
      EscapedRead(quote, chunk[1..], rest, text + [c], types);
      assert text + [c] + chunk[1..] == text + chunk;
    }
  }

  lemma BracedStep(e: string, rest: string, quote: char, text: string, types: seq<TokenType>)
    requires IsQuote(quote) && '}' !in e
    ensures ReadQuoted("{" + e + "}" + rest, quote, text, types) == ReadQuoted(rest, quote, "", Opened(text, types, e))
  {
    hide HeadOf, Opened;
    BracedHead(e, rest, quote);
  }

  lemma FinishLast(text: string, types: seq<TokenType>, inner: seq<TokenType>)
    ensures Finish("", types + [Str(text), PLUS] + inner + [PLUS]) == types + [Str(text)] + ([PLUS] + inner)
  {
  }

  lemma Regroup(a: seq<TokenType>, b: seq<TokenType>, c: seq<TokenType>, d: seq<TokenType>, e: seq<TokenType>,
      f: seq<TokenType>, g: seq<TokenType>)
    ensures a + (b + c) + d + e + f + g == a + b + (c + d + (e + f) + g)
  {
  }

  // The tokens after those before the literal's first expression.
  lemma FinishGrown(text: string, types: seq<TokenType>, parts: seq<Part>)
    requires parts != []
    ensures
      var grown, c := Opened(text, types, parts[0].expr), parts[0].chunk;
      (if |parts| == 1 then Finish(c, grown) else grown + [Str(c)] + SumTypes(parts[1..]))
        == types + [Str(text)] + SumTypes(parts)
  {
    hide Alone;
    var e, c := parts[0].expr, parts[0].chunk;
    FinishLast(text, types, Alone(e));
    Regroup(types, [Str(text)], [PLUS], Alone(e), [PLUS], [Str(c)], SumTypes(parts[1..]));
    assert [Str(text)] + [PLUS] == [Str(text), PLUS] && [PLUS] + [Str(c)] == [PLUS, Str(c)];
    if |parts| == 1 {
      assert SumTypes(parts[1..]) == [] && Opened(text, types, e) + [Str(c)] + [] == Opened(text, types, e) + [Str(c)];
    }
  }

  lemma {:induction false} PartsRead(quote: char, parts: seq<Part>, tail: string, text: string, types: seq<TokenType>)
    requires IsQuote(quote) && Braceless(parts)
    ensures
      var r := ReadQuoted(PartsText(quote, parts) + ([quote] + tail), quote, text, types);
      && r.rest == tail && r.complete
      && Finish(r.text, r.types) == (if parts == [] then Finish(text, types) else types + [Str(text)] + SumTypes(parts))
    decreases |parts|
  {
    hide HeadOf, Opened, Finish, Escaped, SumTypes;
    var end := [quote] + tail;
    var s := PartsText(quote, parts) + end;
    if parts == [] {
      assert s == end;
      ClosingHead(tail, quote);
    } else {
      hide ReadQuoted;
      var e, c := parts[0].expr, parts[0].chunk;
      var more := PartsText(quote, parts[1..]) + end;
      var grown := Opened(text, types, e);
      assert s == "{" + e + "}" + (Escaped(quote, c) + more);
      BracedStep(e, Escaped(quote, c) + more, quote, text, types);
      EscapedRead(quote, c, more, "", grown);
      assert "" + c == c;
      PartsRead(quote, parts[1..], tail, c, grown);
      FinishGrown(text, types, parts);
    }
  }

  lemma FinishHasNoEof(text: string, types: seq<TokenType>)
    requires Eof !in types
    ensures Eof !in Finish(text, types)
  {
  }

  lemma QuoteFirst(quote: char, s: string)
    requires IsQuote(quote)
    ensures var q := ReadQuoted(s, quote, "", []);
      Finish(q.text, q.types) != [Eof] && Lexed([quote] + s) == Finish(q.text, q.types) + Lexed(q.rest)
  {
    hide ReadQuoted, Finish;
    var t := [quote] + s;
    assert t[1..] == s && SkipBlanks(t) == t;
    LexedStep(t);
    QuotedHasNoEof(s, quote, "", []);
    var q := ReadQuoted(s, quote, "", []);
    FinishHasNoEof(q.text, q.types);
  }

  // Whatever its expressions are, a literal becomes its chunks and the tokens of its expressions,
  // each lexed alone, with plus signs between them.
  lemma LiteralTokens(quote: char, first: string, parts: seq<Part>, tail: string)
    requires IsQuote(quote) && Braceless(parts)
    ensures Lexed(LiteralText(quote, first, parts) + tail) == [Str(first)] + SumTypes(parts) + Lexed(tail)
  {
    hide ReadQuoted, Lexed, Escaped, PartsText;
    var more := PartsText(quote, parts) + ([quote] + tail);
    assert LiteralText(quote, first, parts) + tail == [quote] + (Escaped(quote, first) + more);
    EscapedRead(quote, first, more, "", []);
    assert "" + first == first;
    PartsRead(quote, parts, tail, first, []);
    QuoteFirst(quote, Escaped(quote, first) + more);
  }

  // ---------------------------------------------------------------- an expression on its own

  // Does a comment run to the end of the text?
  predicate CommentOpen(s: string)
    decreases |s|
  {
    if s == "" then false
    else if IsBlank(s[0]) then CommentOpen(s[1..])
    else if StartsComment(s) then
      var n := IndexOf('\n', s[1..]);
      n == |s| - 1 || CommentOpen(s[1..][n..])
    else false
  }

  // Every literal is closed, every character starts a token, and no comment runs to the end.
  predicate Closed(e: string)
    decreases |e|
  {
    var t := SkipBlanks(e);
    !CommentOpen(e) && (t == "" || (ReadOne(t).complete && Closed(ReadOne(t).rest)))
  }

  // A text that a blank begins.
  predicate Spaced(r: string) { r != "" && r[0] == ' ' }

  lemma SpaceIsBlank()
    ensures IsBlank(' ')
  {
  }

  lemma {:induction false} BlanksLocal(e: string, r: string)
    requires !CommentOpen(e) && Spaced(r)
    ensures SkipBlanks(e + r) == if SkipBlanks(e) == "" then SkipBlanks(r[1..]) else SkipBlanks(e) + r
    decreases |e|
  {
    hide IsSpace;
    var s := e + r;
    if e == "" {
      assert s == r && IsBlank(' ') by { SpaceIsBlank(); }
    } else {
      assert s[1..] == e[1..] + r;
      if IsBlank(e[0]) {
        BlanksLocal(e[1..], r);
      } else if StartsComment(e) {
        var n := IndexOf('\n', e[1..]);
        IndexLocal('\n', e[1..], r);
        assert s[1..][n..] == e[1..][n..] + r;
        BlanksLocal(e[1..][n..], r);
      }
    }
  }

  lemma {:induction false} RunsLocal(s: string, r: string)
    requires Spaced(r)
    ensures NameLength(s + r) == NameLength(s) && NumberLength(s + r) == NumberLength(s)
    decreases |s|
  {
    if s == "" {
      assert s + r == r;
    } else {
      RunsLocal(s[1..], r);
      assert (s + r)[1..] == s[1..] + r;
      assert |s| == 1 ==> (s + r)[1] == ' ';
    }
  }

  lemma SpaceIsNoSecond(c: char)
    ensures ' ' !in Seconds(c)
  {
  }

  lemma PlainLocal(s: string, r: string)
    requires s != "" && ReadPlain(s).complete && Spaced(r)
    ensures ReadPlain(s + r) == ReadPlain(s).(rest := ReadPlain(s).rest + r)
  {
    hide Seconds, SignOf, WordOf, IsSign, IsDigit, IsNameStart, NumberLength, NameLength;
    SpaceIsNoSecond(s[0]);
    var t := s + r;
    RunsLocal(s[1..], r);
    assert t[1..] == s[1..] + r;
    assert |s| == 1 ==> t[1] == ' ';
    var n := |s| - |ReadPlain(s).rest|;
    assert t[..n] == s[..n] && t[n..] == s[n..] + r;
  }

  lemma {:induction false} QuotedLocal(s: string, quote: char, text: string, types: seq<TokenType>, r: string)
    requires IsQuote(quote) && ReadQuoted(s, quote, text, types).complete && Spaced(r)
    ensures var q := ReadQuoted(s, quote, text, types); ReadQuoted(s + r, quote, text, types) == q.(rest := q.rest + r)
    decreases |s|
  {
    hide HeadOf, Opened, Unescape;
    HeadLocal(s, quote, r);
    match HeadOf(s, quote)
    case Plain(c, more) => QuotedLocal(more, quote, text + [c], types, r);
    case Escape(c, more) => QuotedLocal(more, quote, text + [Unescape(c)], types, r);
    case Braced(e, more) => QuotedLocal(more, quote, "", Opened(text, types, e), r);
    case _ =>
  }

  lemma OneLocal(s: string, r: string)
    requires s != "" && ReadOne(s).complete && Spaced(r)
    ensures ReadOne(s + r) == ReadOne(s).(rest := ReadOne(s).rest + r)
  {
    hide ReadQuoted, ReadPlain;
    assert (s + r)[1..] == s[1..] + r;
    if IsQuote(s[0]) {
      QuotedLocal(s[1..], s[0], "", [], r);
    } else {
      PlainLocal(s, r);
    }
  }

  lemma OneLocalRest(s: string, r: string)
    requires s != "" && ReadOne(s).complete && Spaced(r)
    ensures ReadOne(s + r).types == ReadOne(s).types && ReadOne(s + r).rest == ReadOne(s).rest + r
      && ReadOne(s + r).complete
  {
    hide ReadOne;
    OneLocal(s, r);
  }

  // A closed text keeps its tokens when a blank and more text follow.
  lemma {:induction false} ClosedLocal(e: string, r: string)
    requires Closed(e) && Spaced(r)
    ensures Lexed(e + r) == Alone(e) + Lexed(r[1..])
    decreases |e|
  {
    hide SkipBlanks, CommentOpen, ReadOne, Alone, Lexed;
    BlanksLocal(e, r);
    LexedStep(e + r);
    LexedStep(r[1..]);
    var t := SkipBlanks(e);
    if t == "" {
      LexedStep(e);
      EndsOnce(e);
      assert Alone(e) == [];
    } else {
      OneLocalRest(t, r);
      OneHasNoEof(t);
      AloneStep(e);
      ClosedLocal(ReadOne(t).rest, r);
    }
  }

  // A text that shows when another one is not closed.
  const REVEALING := " x}y"

  lemma NotInEither(c: char, s: string, t: string)
    requires c !in s && c !in t
    ensures c !in s + t
  {
  }

  lemma {:induction false} IndexAbsent(c: char, s: string)
    requires c !in s
    ensures IndexOf(c, s) == |s|
    decreases |s|
  {
    if s != "" {
      IndexAbsent(c, s[1..]);
    }
  }

  lemma {:induction false} OpenComment(e: string)
    requires CommentOpen(e)
    ensures SkipBlanks(e + REVEALING) == ""
    decreases |e|
  {
    hide IsSpace;
    var s := e + REVEALING;
    assert s[1..] == e[1..] + REVEALING;
    if IsBlank(e[0]) {
      OpenComment(e[1..]);
    } else {
      var n := IndexOf('\n', e[1..]);
      if n == |e| - 1 {
        assert e[1..][..n] == e[1..];
        NotInEither('\n', e[1..], REVEALING);
        IndexAbsent('\n', s[1..]);
      } else {
        IndexLocal('\n', e[1..], REVEALING);
        assert s[1..][n..] == e[1..][n..] + REVEALING;
        OpenComment(e[1..][n..]);
      }
    }
  }

  lemma NothingHead(quote: char)
    ensures HeadOf("", quote) == Nothing
  {
  }

  lemma RevealingRead(quote: char, text: string, types: seq<TokenType>)
    requires IsQuote(quote)
    ensures ReadQuoted(REVEALING, quote, text, types) == Quoted(text + REVEALING, types, "", false)
  {
    hide HeadOf, Opened;
    CharHead(' ', "x}y", quote);
    CharHead('x', "}y", quote);
    CharHead('}', "y", quote);
    CharHead('y', "", quote);
    assert [' '] + "x}y" == REVEALING && ['x'] + "}y" == "x}y" && ['}'] + "y" == "}y" && ['y'] + "" == "y";
    assert text + [' '] + ['x'] + ['}'] + ['y'] == text + REVEALING;
    NothingHead(quote);
  }

  // An expression without its brace takes the one that follows.
  lemma OpenBraced(s: string, quote: char)
    requires IsQuote(quote) && HeadOf(s, quote).BracedOpen?
    ensures HeadOf(s + REVEALING, quote) == Braced(s[1..] + " x", "y")
  {
    hide IsEscape;
    assert s[1..][..|s| - 1] == s[1..];
    BracedHead(s[1..] + " x", "y", quote);
    assert s + REVEALING == "{" + (s[1..] + " x") + "}" + "y";
  }

  // A literal without its closing quote takes in what follows.
  lemma {:induction false} OpenQuoted(s: string, quote: char, text: string, types: seq<TokenType>)
    requires IsQuote(quote) && !ReadQuoted(s, quote, text, types).complete
    ensures ReadQuoted(s + REVEALING, quote, text, types).rest == ""
      && ReadQuoted(s + REVEALING, quote, text, types).text != ""
    decreases |s|
  {
    hide HeadOf, Opened, Unescape;
    var h := HeadOf(s, quote);
    if s == "" {
      assert s + REVEALING == REVEALING;
      RevealingRead(quote, text, types);
    } else if h.BracedOpen? {
      OpenBraced(s, quote);
      CharHead('y', "", quote);
      NothingHead(quote);
      assert ['y'] + "" == "y";
    } else {
      HeadLocal(s, quote, REVEALING);
      match h
      case Plain(c, more) => OpenQuoted(more, quote, text + [c], types);
      case Escape(c, more) => OpenQuoted(more, quote, text + [Unescape(c)], types);
      case Braced(e, more) => OpenQuoted(more, quote, "", Opened(text, types, e));
      case _ =>
    }
  }

  lemma NameStartIs(c: char)
    requires IsNameStart(c)
    ensures !IsBlank(c) && !IsSign(c) && !IsQuote(c) && !IsDigit(c) && c != '/'
  {
  }

  lemma WordIsNoEof(text: string)
    ensures WordOf(text).Keyword? || WordOf(text).Identifier?
  {
    hide IsKeyword;
  }

  lemma NameFirst(c: char, s: string)
    requires IsNameStart(c) && (s == "" || !IsNameChar(s[0]))
    ensures Lexed([c] + s) == [WordOf([c])] + Lexed(s)
  {
    NameStartIs(c);
    WordIsNoEof([c]);
    hide IsBlank, IsSign, IsQuote, IsDigit, IsNameStart, IsNameChar, WordOf;
    var t := [c] + s;
    assert t[1..] == s && t[..1] == [c];
    assert NameLength(s) == 0;
    assert SkipBlanks(t) == t;
    LexedStep(t);
  }

  lemma SignFirst(c: char, s: string)
    requires IsSign(c) && !IsBlank(c) && !IsQuote(c) && c != '/' && c != '&' && c != '|'
      && (s == "" || s[0] !in Seconds(c))
    ensures Lexed([c] + s) == [Sign([c])] + Lexed(s)
  {
    hide IsBlank, IsSign, IsQuote, Seconds;
    var t := [c] + s;
    assert t[1..] == s && t[..1] == [c];
    assert SkipBlanks(t) == t;
    LexedStep(t);
  }

  lemma SomeCharacters()
    ensures IsSign('}') && !IsBlank('}') && !IsQuote('}') && !IsNameChar('}') && Seconds('}') == "" && IsNameStart('x')
      && IsNameStart('y')
  {
  }

  lemma RevealingTokens()
    ensures Lexed("x}y") == [WordOf("x"), Sign("}"), WordOf("y"), Eof] && !WordOf("y").Str?
  {
    hide IsKeyword, WordOf, IsNameStart, IsNameChar, IsBlank, IsSign, IsQuote, Seconds, Lexed, SkipBlanks;
    WordIsNoEof("y");
    SomeCharacters();
    assert SkipBlanks("") == "";
    LexedStep("");
    assert ['y'] + "" == "y" && ['}'] + "y" == "}y" && ['x'] + "}y" == "x}y";
    NameFirst('y', "");
    SignFirst('}', "y");
    NameFirst('x', "}y");
  }

  // The token before the end.
  function BeforeEnd(types: seq<TokenType>): TokenType
  {
    if |types| < 2 then Eof else types[|types| - 2]
  }

  lemma SkipNothing(t: string)
    requires t != "" && SkipBlanks(t) == t
    ensures SkipBlanks(t + REVEALING) == t + REVEALING
  {
    hide IsSpace;
    assert |t| == 1 ==> (t + REVEALING)[1] == ' ';
  }

  lemma OpenOne(t: string)
    requires t != "" && !ReadOne(t).complete && SkipBlanks(t) == t
    ensures var end := BeforeEnd(Lexed(t + REVEALING)); end.Str? || end.Eof?
  {
    hide ReadQuoted, SkipBlanks, WordOf, SignOf;
    var s := t + REVEALING;
    assert s[1..] == t[1..] + REVEALING;
    assert SkipBlanks(s) == s by { SkipNothing(t); }
    LexedStep(s);
    LexedStep("");
    assert SkipBlanks("") == "";
    if IsQuote(t[0]) {
      OpenQuoted(t[1..], t[0], "", []);
      var q := ReadQuoted(s[1..], s[0], "", []);
      QuotedHasNoEof(s[1..], s[0], "", []);
      FinishHasNoEof(q.text, q.types);
    }
  }

  lemma {:induction false} SkipTwice(s: string)
    ensures SkipBlanks(SkipBlanks(s)) == SkipBlanks(s)
    decreases |s|
  {
    hide IsBlank;
  }

  lemma SameBehind(front: seq<TokenType>, a: seq<TokenType>, b: seq<TokenType>)
    requires a != b
    ensures front + a != front + b
  {
    assert (front + a)[|front|..] == a && (front + b)[|front|..] == b;
  }

  lemma {:induction false} OpenBreaks(e: string)
    requires !Closed(e)
    ensures Lexed(e + REVEALING) != Alone(e) + Lexed("x}y")
    decreases |e|
  {
    WordIsNoEof("y");
    hide SkipBlanks, CommentOpen, ReadOne, Lexed, Alone, WordOf;
    LexedStep(e + REVEALING);
    RevealingTokens();
    if CommentOpen(e) {
      OpenComment(e);
    } else {
      BlanksLocal(e, REVEALING);
      var t := SkipBlanks(e);
      SkipTwice(e);
      if !ReadOne(t).complete {
        LexedStep(t + REVEALING);
        SkipNothing(t);
        OpenOne(t);
        assert BeforeEnd(Alone(e) + Lexed("x}y")) == WordOf("y");
      } else {
        var rest := ReadOne(t).rest;
        OneLocalRest(t, REVEALING);
        OneHasNoEof(t);
        AloneStep(e);
        OpenBreaks(rest);
        SameBehind(ReadOne(t).types, Lexed(rest + REVEALING), Alone(rest) + Lexed("x}y"));
        assert ReadOne(t).types + (Alone(rest) + Lexed("x}y")) == Alone(e) + Lexed("x}y");
      }
    }
  }

  // A text can be lexed on its own, in front of anything, exactly when it is closed.
  lemma ClosedExactly(e: string)
    ensures Closed(e) <==> forall r :: Spaced(r) ==> Lexed(e + r) == Alone(e) + Lexed(r[1..])
  {
    hide Closed, Lexed, Alone;
    if Closed(e) {
      forall r | Spaced(r) ensures Lexed(e + r) == Alone(e) + Lexed(r[1..]) {
        ClosedLocal(e, r);
      }
    } else {
      OpenBreaks(e);
      assert REVEALING[1..] == "x}y";
      assert Spaced(REVEALING);
    }
  }

  predicate AllClosed(parts: seq<Part>)
  {
    forall i :: 0 <= i < |parts| ==> Closed(parts[i].expr)
  }

  // A plus sign between blanks, or in front of one.
  lemma PlusFirst(s: string)
    ensures Lexed("+ " + s) == [PLUS] + Lexed(s) && Lexed(" + " + s) == [PLUS] + Lexed(s)
  {
    SpaceIsBlank();
    SpaceIsNoSecond('+');
    assert !IsBlank('+') && IsSign('+');
    hide IsBlank, Seconds, IsSign, Lexed;
    var t := "+ " + s;
    assert t == ['+'] + (" " + s) && (" " + s)[1..] == s && (" " + t)[1..] == t && " + " + s == " " + t;
    SignFirst('+', " " + s);
    LexedStep(t);
    LexedStep(" " + t);
    LexedStep(" " + s);
    LexedStep(s);
  }

  lemma PlainTokens(quote: char, chunk: string, tail: string)
    requires IsQuote(quote)
    ensures Lexed(PlainText(quote, chunk) + tail) == [Str(chunk)] + Lexed(tail)
  {
    hide Lexed, Escaped;
    assert LiteralText(quote, chunk, []) == PlainText(quote, chunk);
    LiteralTokens(quote, chunk, [], tail);
    assert [Str(chunk)] + [] == [Str(chunk)];
  }

  lemma {:induction false} SumTokens(quote: char, parts: seq<Part>, tail: string)
    requires IsQuote(quote) && AllClosed(parts)
    ensures Lexed(SumText(quote, parts) + tail) == SumTypes(parts) + Lexed(tail)
    decreases |parts|
  {
    hide Lexed, Alone, PlainText, Closed;
    var s := SumText(quote, parts) + tail;
    if parts == [] {
      assert s == tail;
    } else {
      var e, c := parts[0].expr, parts[0].chunk;
      if Dropped(parts) {
        var next := " " + tail;
        assert s == " + " + (e + next) && next[1..] == tail;
        PlusFirst(e + next);
        ClosedLocal(e, next);
      } else {
        var more := SumText(quote, parts[1..]) + tail;
        var next := " + " + (PlainText(quote, c) + more);
        assert s == " + " + (e + next) && next[1..] == "+ " + (PlainText(quote, c) + more);
        PlusFirst(e + next);
        ClosedLocal(e, next);
        PlusFirst(PlainText(quote, c) + more);
        PlainTokens(quote, c, more);
        SumTokens(quote, parts[1..], tail);
      }
    }
  }

  // A literal with closed expressions lexes as the sum of its parts written out.
  lemma LiteralIsSum(quote: char, first: string, parts: seq<Part>, tail: string)
    requires IsQuote(quote) && Braceless(parts) && AllClosed(parts)
    ensures Lexed(LiteralText(quote, first, parts) + tail)
      == Lexed(PlainText(quote, first) + SumText(quote, parts) + tail)
  {
    hide Lexed, LiteralText, PlainText, SumText, SumTypes;
    LiteralTokens(quote, first, parts, tail);
    assert PlainText(quote, first) + SumText(quote, parts) + tail
      == PlainText(quote, first) + (SumText(quote, parts) + tail);
    PlainTokens(quote, first, SumText(quote, parts) + tail);
    SumTokens(quote, parts, tail);
  }

  // ---------------------------------------------------------------- the lexer

  // The types of tokens; those of a buffer are handed out from its end.
  function Types(tokens: seq<Token>): (r: seq<TokenType>)
    ensures |r| == |tokens|
  {
    if tokens == [] then [] else Types(tokens[..|tokens| - 1]) + [tokens[|tokens| - 1].ty]
  }

  function Backwards(buffer: seq<Token>): (r: seq<TokenType>)
    ensures |r| == |buffer|
  {
    if buffer == [] then [] else [buffer[|buffer| - 1].ty] + Backwards(buffer[..|buffer| - 1])
  }

  function Reversed(tokens: seq<Token>): (r: seq<Token>)
    ensures |r| == |tokens|
  {
    if tokens == [] then [] else Reversed(tokens[1..]) + [tokens[0]]
  }

  lemma {:induction false} TypesJoin(a: seq<Token>, b: seq<Token>)
    ensures Types(a + b) == Types(a) + Types(b)
    decreases |b|
  {
    if b == [] {
      assert a + b == a;
    } else {
      assert (a + b)[..|a + b| - 1] == a + b[..|b| - 1];
      TypesJoin(a, b[..|b| - 1]);
    }
  }

  lemma {:induction false} HandedOut(tokens: seq<Token>)
    ensures Backwards(Reversed(tokens)) == Types(tokens)
    decreases |tokens|
  {
    if tokens != [] {
      HandedOut(tokens[1..]);
      var r := Reversed(tokens);
      assert r[..|r| - 1] == Reversed(tokens[1..]);
      TypesJoin([tokens[0]], tokens[1..]);
      assert tokens == [tokens[0]] + tokens[1..];
      assert Types([tokens[0]]) == [tokens[0].ty];
    }
  }

  // Where the next character stands.
  datatype Place = Place(line: nat, col: nat)

  function After(p: Place, c: char): Place
  {
    if c == '\n' then Place(p.line + 1, 1) else Place(p.line, p.col + 1)
  }

  function AfterText(p: Place, s: string): Place
    decreases |s|
  {
    if s == "" then p else AfterText(After(p, s[0]), s[1..])
  }

  // Reading on from s at p, text t is left, at q.
  ghost predicate Reached(s: string, p: Place, t: string, q: Place)
  {
    |t| <= |s| && t == s[|s| - |t|..] && q == AfterText(p, s[..|s| - |t|])
  }

  lemma {:induction false} AfterJoin(p: Place, a: string, b: string)
    ensures AfterText(p, a + b) == AfterText(AfterText(p, a), b)
    decreases |a|
  {
    if a == "" {
      assert a + b == b;
    } else {
      assert (a + b)[1..] == a[1..] + b;
      AfterJoin(After(p, a[0]), a[1..], b);
    }
  }

  lemma ReachedOn(s: string, p: Place, t: string, q: Place, u: string, r: Place)
    requires Reached(s, p, t, q) && Reached(t, q, u, r)
    ensures Reached(s, p, u, r)
  {
    AfterJoin(p, s[..|s| - |t|], t[..|t| - |u|]);
    assert s[..|s| - |u|] == s[..|s| - |t|] + t[..|t| - |u|];
  }

  lemma NothingRead(s: string, p: Place)
    ensures Reached(s, p, s, p)
  {
    assert s[..0] == "";
  }

  // A comment ends in front of its line's end, counted from its first slash or its second.
  lemma CommentFirst(s: string)
    requires StartsComment(s)
    ensures s[1..][IndexOf('\n', s[1..])..] == s[IndexOf('\n', s)..]
  {
  }

  lemma NoTypes()
    ensures Types([]) == []
  {
  }

  lemma HeadCases(s: string, quote: char)
    requires IsQuote(quote) && s != ""
    ensures
      var h := HeadOf(s, quote);
      if s[0] == '\\' && s[1..] != "" && IsEscape(s[1..][0]) then h == Escape(s[1..][0], s[1..][1..])
      else if s[0] == quote then h == Closing(s[1..])
      else if s[0] == '{' then
        var n := IndexOf('}', s[1..]);
        if n < |s[1..]| then h == Braced(s[1..][..n], s[1..][n + 1..])
          else h == BracedOpen(s[1..]) && s[1..][..n] == s[1..] && s[1..][n..] == ""
      else h == Plain(s[0], s[1..])
  {
    hide IsEscape;
    assert |s| > 1 ==> s[1..][1..] == s[2..];
  }

  lemma OpenedJoin(text: string, tokens: seq<Token>, more: seq<Token>, e: string)
    requires Types(more) == Opened(text, [], e)
    ensures Types(tokens + more) == Opened(text, Types(tokens), e)
  {
    hide Types, Alone;
    TypesJoin(tokens, more);
    assert [] + [Str(text), PLUS] + Alone(e) + [PLUS] == [Str(text), PLUS] + Alone(e) + [PLUS];
  }

  lemma TypesGrow(tokens: seq<Token>, tok: Token)
    ensures Types(tokens + [tok]) == Types(tokens) + [tok.ty]
  {
    assert (tokens + [tok])[..|tokens|] == tokens;
  }

  lemma OpenedTypes(text: string, before: seq<Token>, inner: seq<Token>, plus: Token, e: string)
    requires |before| == 2 && before[0].ty == Str(text) && before[1].ty == PLUS && plus.ty == PLUS
      && Types(inner) == Alone(e)
    ensures Types(before + inner + [plus]) == Opened(text, [], e)
  {
    hide Alone;
    assert before == [] + [before[0]] + [before[1]];
    TypesGrow([], before[0]);
    TypesGrow([before[0]], before[1]);
    TypesJoin(before, inner);
    TypesGrow(before + inner, plus);
    hide Types;
    assert [before[0]] + [before[1]] == before && [] + [before[0]] == [before[0]];
  }

  lemma SameFront(a: seq<TokenType>, b: seq<TokenType>, x: TokenType)
    requires a + [x] == b + [x]
    ensures a == b
  {
    assert (a + [x])[..|a + [x]| - 1] == a && (b + [x])[..|b + [x]| - 1] == b;
  }

  lemma Handed(out: seq<TokenType>, ty: TokenType, coming: seq<TokenType>)
    ensures out + ([ty] + coming) == out + [ty] + coming
  {
  }

  lemma FirstOfOne(ty: TokenType, back: seq<TokenType>, rest: seq<TokenType>, types: seq<TokenType>)
    requires types == [ty] + back && types != [] && (types == [Eof] || Eof !in types)
    ensures ty == Eof <==> types == [Eof]
    ensures types + rest == [ty] + (back + rest)
  {
    assert types[0] == ty;
  }

  // One step into a literal.
  lemma ReadStep(s: string, quote: char, text: string, types: seq<TokenType>)
    ensures
      var h, q := HeadOf(s, quote), ReadQuoted(s, quote, text, types);
      && (h.Plain? ==> q == ReadQuoted(h.more, quote, text + [h.c], types))
      && (h.Escape? ==> q == ReadQuoted(h.more, quote, text + [Unescape(h.c)], types))
      && (h.Closing? ==> q == Quoted(text, types, h.more, true))
      && (h.Braced? ==> q == ReadQuoted(h.more, quote, "", Opened(text, types, h.expr)))
      && (h.BracedOpen? ==> q == Quoted("", Opened(text, types, h.expr), "", false))
  {
    hide HeadOf, Opened, Unescape;
  }

  lemma NothingLeft(quote: char)
    ensures forall text: string, types: seq<TokenType> ::
      ReadQuoted("", quote, text, types) == Quoted(text, types, "", false)
  {
    NothingHead(quote);
    hide Opened;
  }

  class Lexer {
    var chars: string
    var line: nat
    var col: nat
    var buffer: seq<Token>

    constructor (source: string)
      ensures chars == source && Here() == Place(1, 1) && buffer == []
    {
      chars, line, col, buffer := source, 1, 1, [];
    }

    function Here(): Place
      reads this
    {
      Place(line, col)
    }

    ghost predicate Valid()
      reads this
    {
      Eof !in Backwards(buffer)
    }

    // The types of the tokens still to be handed out.
    ghost function Coming(): seq<TokenType>
      reads this
    {
      Backwards(buffer) + Lexed(chars)
    }

    method Advance() returns (c: Option<char>)
      modifies this`chars, this`line, this`col
      ensures Reached(old(chars), old(Here()), chars, Here())
      ensures if old(chars) == "" then c == None && chars == ""
        else c == Some(old(chars)[0]) && chars == old(chars)[1..]
    {
      if chars == "" {
        return None;
      }
      c := Some(chars[0]);
      if chars[0] == '\n' {
        line, col := line + 1, 1;
      } else {
        col := col + 1;
      }
      assert AfterText(old(Here()), [chars[0]]) == After(old(Here()), chars[0]) by {
        assert AfterText(After(old(Here()), chars[0]), "") == After(old(Here()), chars[0]);
      }
      assert chars[..1] == [chars[0]];
      chars := chars[1..];
    }

    // Takes the next character if it is one of these.
    method MatchOne(expected: string) returns (matched: bool)
      modifies this`chars, this`line, this`col
      ensures matched <==> old(chars) != "" && old(chars)[0] in expected
      ensures chars == if matched then old(chars)[1..] else old(chars)
      ensures Reached(old(chars), old(Here()), chars, Here())
    {
      matched := chars != "" && chars[0] in expected;
      if matched {
        var _ := Advance();
      }
    }

    // Takes the characters up to this one, and it if the flag is set.
    method TakeUntil(end: char, inclusive: bool) returns (taken: string)
      modifies this`chars, this`line, this`col
      ensures var n := IndexOf(end, old(chars));
        taken == old(chars)[..n] && chars == old(chars)[if inclusive && n < |old(chars)| then n + 1 else n..]
      ensures Reached(old(chars), old(Here()), chars, Here())
    {
      hide Reached;
      ghost var s := chars;
      taken := "";
      NothingRead(chars, Here());
      while chars != "" && chars[0] != end
        invariant |taken| <= |s| && taken == s[..|taken|] && chars == s[|taken|..]
        invariant IndexOf(end, s) == |taken| + IndexOf(end, chars)
        invariant Reached(s, old(Here()), chars, Here())
        decreases |chars|
      {
        ghost var t, q := chars, Here();
        taken := taken + [chars[0]];
        var _ := Advance();
        ReachedOn(s, old(Here()), t, q, chars, Here());
      }
      if inclusive {
        ghost var t, q := chars, Here();
        var _ := Advance();
        ReachedOn(s, old(Here()), t, q, chars, Here());
      }
    }

    method SkipWhitespace()
      modifies this`chars, this`line, this`col
      ensures chars == SkipBlanks(old(chars))
      ensures Reached(old(chars), old(Here()), chars, Here())
    {
      hide Reached, IsBlank;
      ghost var s := chars;
      NothingRead(chars, Here());
      while chars != "" && (IsBlank(chars[0]) || StartsComment(chars))
        invariant SkipBlanks(chars) == SkipBlanks(s)
        invariant Reached(s, old(Here()), chars, Here())
        decreases |chars|
      {
        ghost var t, q := chars, Here();
        if IsBlank(chars[0]) {
          var _ := Advance();
        } else {
          CommentFirst(chars);
          var _ := TakeUntil('\n', false);
        }
        ReachedOn(s, old(Here()), t, q, chars, Here());
      }
    }

    method ReadPlainToken(c: char) returns (ty: TokenType)
      requires !IsQuote(c)
      modifies this`chars, this`line, this`col
      ensures var one := ReadPlain([c] + old(chars)); ty == one.types[0] && chars == one.rest
      ensures Reached(old(chars), old(Here()), chars, Here())
    {
      hide Reached, IsSign, IsDigit, IsNameStart, Seconds, SignOf, WordOf, IsNameChar;
      var s := chars;
      ghost var t := [c] + s;
      NothingRead(chars, Here());
      assert t[1..] == s && t[..1] == [c];
      if IsSign(c) {
        var more := MatchOne(Seconds(c));
        assert more ==> t[..2] == [c, s[0]];
        ty := SignOf(if more then [c, s[0]] else [c]);
      } else if IsDigit(c) {
        var num := TakeNumber();
        assert t[..1 + |num|] == [c] + num;
        ty := Number([c] + num);
      } else if IsNameStart(c) {
        var name := TakeName();
        assert t[..1 + |name|] == [c] + name;
        ty := WordOf([c] + name);
      } else {
        ty := Eof;
      }
    }

    method TakeNumber() returns (num: string)
      modifies this`chars, this`line, this`col
      ensures var n := NumberLength(old(chars)); num == old(chars)[..n] && chars == old(chars)[n..]
      ensures Reached(old(chars), old(Here()), chars, Here())
    {
      hide Reached, IsDigit;
      ghost var s := chars;
      num := "";
      NothingRead(chars, Here());
      while chars != "" && (IsDigit(chars[0]) || (chars[0] == '.' && !(|chars| > 1 && chars[1] == '.')))
        invariant |num| <= |s| && num == s[..|num|] && chars == s[|num|..]
        invariant NumberLength(s) == |num| + NumberLength(chars)
        invariant Reached(s, old(Here()), chars, Here())
        decreases |chars|
      {
        ghost var t, q := chars, Here();
        num := num + [chars[0]];
        var _ := Advance();
        ReachedOn(s, old(Here()), t, q, chars, Here());
      }
    }

    method TakeName() returns (name: string)
      modifies this`chars, this`line, this`col
      ensures var n := NameLength(old(chars)); name == old(chars)[..n] && chars == old(chars)[n..]
      ensures Reached(old(chars), old(Here()), chars, Here())
    {
      hide Reached, IsNameChar;
      ghost var s := chars;
      name := "";
      NothingRead(chars, Here());
      while chars != "" && IsNameChar(chars[0])
        invariant |name| <= |s| && name == s[..|name|] && chars == s[|name|..]
        invariant NameLength(s) == |name| + NameLength(chars)
        invariant Reached(s, old(Here()), chars, Here())
        decreases |chars|
      {
        ghost var t, q := chars, Here();
        name := name + [chars[0]];
        var _ := Advance();
        ReachedOn(s, old(Here()), t, q, chars, Here());
      }
    }

    // A literal after its quote: its tokens, and the characters since the last expression.
    method ReadLiteral(quote: char) returns (text: string, tokens: seq<Token>)
      requires IsQuote(quote)
      modifies this`chars, this`line, this`col
      ensures
        var q := ReadQuoted(old(chars), quote, "", []);
        text == q.text && Types(tokens) == q.types && chars == q.rest
      ensures Reached(old(chars), old(Here()), chars, Here())
      decreases |chars|, 0
    {
      hide Reached, IsEscape, Unescape, HeadOf, Opened, Types, ReadQuoted;
      ghost var s := chars;
      text, tokens := "", [];
      NothingLeft(quote);
      NothingRead(chars, Here());
      NothingHead(quote);
      NoTypes();
      while chars != ""
        invariant ReadQuoted(chars, quote, text, Types(tokens)) == ReadQuoted(s, quote, "", [])
        invariant Reached(s, old(Here()), chars, Here())
        decreases |chars|
      {
        ghost var t, p := chars, Here();
        HeadCases(t, quote);
        ReadStep(t, quote, text, Types(tokens));
        var nc := chars[0];
        var _ := Advance();
        ReachedOn(s, old(Here()), t, p, chars, Here());
        if nc == '\\' && chars != "" && IsEscape(chars[0]) {
          ghost var u, q := chars, Here();
          text := text + [Unescape(chars[0])];
          var _ := Advance();
          ReachedOn(s, old(Here()), u, q, chars, Here());
        } else if nc == quote {
          break;
        } else if nc == '{' {
          ghost var u, q := chars, Here();
          var more := ReadExpression(text);
          ReachedOn(s, old(Here()), u, q, chars, Here());
          OpenedJoin(text, tokens, more, u[..IndexOf('}', u)]);
          tokens := tokens + more;
          text := "";
        } else {
          text := text + [nc];
        }
      }
    }

    // An expression after its brace: the tokens that it adds.
    method ReadExpression(text: string) returns (more: seq<Token>)
      modifies this`chars, this`line, this`col
      ensures var n := IndexOf('}', old(chars));
        && Types(more) == Opened(text, [], old(chars)[..n])
        && chars == old(chars)[if n < |old(chars)| then n + 1 else n..]
      ensures Reached(old(chars), old(Here()), chars, Here())
      decreases |chars|, 7
    {
      hide Reached, Types;
      var before := [Token(Str(text), line, col), Token(PLUS, line, col)];
      var expr := TakeUntil('}', true);
      var inner := SubTokens(expr);
      more := before + inner + [Token(PLUS, line, col)];
      OpenedTypes(text, before, inner, Token(PLUS, line, col), expr);
    }

    // The tokens of an expression, by a lexer of its own.
    method SubTokens(expr: string) returns (tokens: seq<Token>)
      ensures Types(tokens) == Alone(expr)
      decreases |expr|, 6
    {
      var sub := new Lexer(expr);
      tokens := [];
      EndsOnce(expr);
      hide Lexed, Alone, Reached, Backwards, SkipBlanks, Types;
      NoTypes();
      while true
        invariant fresh(sub) && sub.Valid() && |sub.chars| <= |expr|
        invariant Types(tokens) + sub.Coming() == Lexed(expr)
        decreases |sub.Coming()|
      {
        var tok := sub.NextToken();
        if tok.ty == Eof {
          SameFront(Types(tokens), Alone(expr), Eof);
          break;
        }
        TypesGrow(tokens, tok);
        Handed(Types(tokens), tok.ty, sub.Coming());
        tokens := tokens + [tok];
      }
    }

    // Hands out the next token.
    method NextToken() returns (tok: Token)
      requires Valid()
      modifies this
      ensures Valid() && |chars| <= |old(chars)|
      ensures if tok.ty == Eof then old(Coming()) == [Eof] else old(Coming()) == [tok.ty] + Coming()
      ensures Reached(old(chars), old(Here()), chars, Here())
      ensures old(buffer) == [] && buffer == [] ==>
        Reached(old(chars), old(Here()), SkipBlanks(old(chars)), Place(tok.line, tok.col))
      decreases |chars|, 5
    {
      hide Reached, Lexed;
      if buffer == [] {
        tok := ReadToken();
      } else {
        tok := buffer[|buffer| - 1];
        buffer := buffer[..|buffer| - 1];
        NothingRead(chars, Here());
        assert old(Coming()) == [tok.ty] + Coming();
      }
    }

    // Reads on when no token waits.
    method ReadToken() returns (tok: Token)
      requires buffer == []
      modifies this
      ensures Valid() && |chars| <= |old(chars)|
      ensures if tok.ty == Eof then Lexed(old(chars)) == [Eof] else Lexed(old(chars)) == [tok.ty] + Coming()
      ensures Reached(old(chars), old(Here()), chars, Here())
      ensures buffer == [] ==> Reached(old(chars), old(Here()), SkipBlanks(old(chars)), Place(tok.line, tok.col))
      decreases |chars|, 4
    {
      hide Reached, Lexed, ReadQuoted, ReadPlain, SkipBlanks, Types, Finish, IsQuote, ReadOne;
      ghost var s, p := chars, Here();
      SkipWhitespace();
      LexedStep(s);
      var l, k := line, col;
      ghost var t, q := chars, Here();
      var first := Advance();
      ReachedOn(s, p, t, q, chars, Here());
      if first.None? {
        return Token(Eof, l, k);
      }
      ghost var u, r := chars, Here();
      assert t == [first.value] + u;
      tok := ReadOneToken(first.value, l, k);
      ReachedOn(s, p, u, r, chars, Here());
      OneHasNoEof(t);
      FirstOfOne(tok.ty, Backwards(buffer), Lexed(chars), ReadOne(t).types);
    }

    // A token whose first character is read.
    method ReadOneToken(c: char, l: nat, k: nat) returns (tok: Token)
      requires buffer == []
      modifies this
      ensures var one := ReadOne([c] + old(chars)); one.types == [tok.ty] + Backwards(buffer) && one.rest == chars
      ensures Valid() && |chars| <= |old(chars)|
      ensures Reached(old(chars), old(Here()), chars, Here())
      ensures buffer == [] ==> Place(tok.line, tok.col) == Place(l, k)
      decreases |chars|, 2
    {
      hide Reached, ReadQuoted, ReadPlain, Types, Finish, IsQuote;
      assert ([c] + chars)[1..] == chars;
      if IsQuote(c) {
        tok := LiteralToken(c, l, k);
      } else {
        var ty := ReadPlainToken(c);
        tok := Token(ty, l, k);
      }
    }

    // The first token of a literal after its quote; the others wait.
    method LiteralToken(quote: char, l: nat, k: nat) returns (tok: Token)
      requires IsQuote(quote) && buffer == []
      modifies this
      ensures var q := ReadQuoted(old(chars), quote, "", []);
        [tok.ty] + Backwards(buffer) == Finish(q.text, q.types) && chars == q.rest
      ensures Valid() && tok.ty != Eof && (buffer == [] ==> Place(tok.line, tok.col) == Place(l, k))
      ensures Reached(old(chars), old(Here()), chars, Here())
      decreases |chars|, 1
    {
      hide Reached, ReadQuoted, Types;
      QuotedHasNoEof(chars, quote, "", []);
      ghost var q := ReadQuoted(chars, quote, "", []);
      FinishHasNoEof(q.text, q.types);
      var text, tokens := ReadLiteral(quote);
      if tokens == [] {
        return Token(Str(text), l, k);
      }
      tokens := FinishTokens(text, tokens);
      HandedOut(tokens);
      buffer := Reversed(tokens);
      tok := buffer[|buffer| - 1];
      buffer := buffer[..|buffer| - 1];
    }

    method FinishTokens(text: string, tokens: seq<Token>) returns (all: seq<Token>)
      requires |tokens| > 2
      ensures |all| > 1 && Types(all) == Finish(text, Types(tokens))
    {
      if text == "" {
        all := tokens[..|tokens| - 1];
      } else {
        all := tokens + [Token(Str(text), line, col)];
        TypesGrow(tokens, Token(Str(text), line, col));
      }
    }
  }

  // All the tokens of a text.
  method Lex(source: string) returns (tokens: seq<Token>)
    ensures Types(tokens) == Lexed(source)
  {
    var lexer := new Lexer(source);
    tokens := [];
    EndsOnce(source);
    hide Lexed, Alone, Reached, Backwards, SkipBlanks, Types;
    NoTypes();
    while true
      invariant fresh(lexer) && lexer.Valid()
      invariant Types(tokens) + lexer.Coming() == Lexed(source)
      decreases |lexer.Coming()|
    {
      var tok := lexer.NextToken();
      TypesGrow(tokens, tok);
      Handed(Types(tokens), tok.ty, lexer.Coming());
      tokens := tokens + [tok];
      if tok.ty == Eof {
        break;
      }
    }
  }
}
