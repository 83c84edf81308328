/** How tokens are written (crates/eronom-frontend/src/lexer.rs:98-320): a list of all spellings,
    and the proof that any tokens, in any of their spellings and with any blanks and comments between
    them, are read back. */
module Tokens {
  import opened Lexer

  // ---------------------------------------------------------------- spellings

  // The signs that stand for themselves.
  const SIGNS: seq<string> := [
    "(", ")", "{", "}", "[", "]", ",", ":", "@", "^", "~", "?",
    "-", "--", "-=", "+", "++", "+=", "*", "*=", "/", "/=", "%", "%=", "&", "|", ".", "..",
    "!", "!=", "=", "==", "=>", "<", "<<", "<=", ">", ">>", ">="]

  const VALUES: seq<string> := ["and", "or", "true", "false", "null", "_", "typeof", "as", "is", "in"]

  const DECLARING: seq<string> := [
    "let", "const", "function", "struct", "embed", "interface", "enum", "type", "import", "export", "from"]

  const CONTROL: seq<string> := [
    "if", "else", "for", "while", "break", "continue", "switch", "case", "default", "match", "return"]

  const FURTHER: seq<string> := [
    "try", "catch", "finally", "throw", "new", "print", "async", "sync", "await", "concurrent", "spawn", "on"]

  const WORDS := VALUES + DECLARING + CONTROL + FURTHER

  // A second way to write some of the words.
  const ALIASES: seq<(string, string)> := [("&&", "and"), ("||", "or"), ("fn", "function")]

  // A character of a string, as it is or behind a backslash.
  datatype Piece = Raw(c: char) | Escaped(c: char)

  function Character(p: Piece): char
  {
    match p
    case Escaped('n') => '\n'
    case Escaped('t') => '\t'
    case Escaped('r') => '\r'
    case _ => p.c
  }

  predicate Writable(quote: char, p: Piece)
  {
    match p
    case Raw(c) => c != quote && c != '\\' && c != '{'
    case Escaped(c) => c in "ntr\"'\\{}"
  }

  function PiecesText(pieces: seq<Piece>): string
  {
    if pieces == [] then ""
    else (if pieces[0].Raw? then [pieces[0].c] else ['\\', pieces[0].c]) + PiecesText(pieces[1..])
  }

  function Characters(pieces: seq<Piece>): string
  {
    seq(|pieces|, i requires 0 <= i < |pieces| => Character(pieces[i]))
  }

  predicate IsQuoted(text: string, quote: char, pieces: seq<Piece>)
  {
    && (quote == '"' || quote == '\'') && text == [quote] + PiecesText(pieces) + [quote]
    && forall i :: 0 <= i < |pieces| ==> Writable(quote, pieces[i])
  }

  predicate IsLetter(c: char) { 'a' <= c <= 'z' || 'A' <= c <= 'Z' || c == '_' }

  predicate IsName(s: string)
  {
    s != "" && IsLetter(s[0]) && forall i :: 0 <= i < |s| ==> IsLetter(s[i]) || '0' <= s[i] <= '9'
  }

  predicate DigitsAndDots(s: string)
  {
    && (forall i :: 0 <= i < |s| ==> '0' <= s[i] <= '9' || s[i] == '.')
    && forall i :: 0 <= i < |s| - 1 ==> s[i] != '.' || s[i + 1] != '.'
  }

  // Digits and single dots, a digit first.
  predicate IsNumeral(s: string)
  {
    && s != "" && '0' <= s[0] <= '9' && DigitsAndDots(s)
  }

  // The text is a way to write the token.
  ghost predicate Spells(text: string, ty: TokenType)
  {
    match ty
    case Sign(sign) => text == sign && sign in SIGNS
    case Keyword(word) => (text == word && word in WORDS) || (text, word) in ALIASES
    case Identifier(name) => text == name && IsName(name) && name !in WORDS && name != "fn"
    case Number(digits) => text == digits && IsNumeral(digits)
    case Str(chars) => exists quote, pieces :: IsQuoted(text, quote, pieces) && chars == Characters(pieces)
    case Eof => false
  }

  // ---------------------------------------------------------------- what stands between tokens

  // White space, as Unicode lists it, and semicolons.
  const BLANKS: string :=
    " ;\t\n\U{0B}\U{0C}\r\U{85}\U{A0}\U{1680}\U{2000}\U{2001}\U{2002}\U{2003}\U{2004}\U{2005}\U{2006}" +
    "\U{2007}\U{2008}\U{2009}\U{200A}\U{2028}\U{2029}\U{202F}\U{205F}\U{3000}"

  datatype Gap = Blank(c: char) | Comment(text: string)

  predicate IsGap(g: Gap)
  {
    match g
    case Blank(c) => c in BLANKS
    case Comment(text) => '\n' !in text
  }

  function GapText(gaps: seq<Gap>): string
  {
    if gaps == [] then ""
    else (match gaps[0] case Blank(c) => [c] case Comment(text) => "//" + text + "\n") + GapText(gaps[1..])
  }

  predicate AreGaps(gaps: seq<Gap>)
  {
    forall i :: 0 <= i < |gaps| ==> IsGap(gaps[i])
  }

  // A token, how it is written, and what stands behind it.
  datatype Written = Written(ty: TokenType, text: string, gaps: seq<Gap>)

  // Behind every token but the last there is at least a blank.
  ghost predicate WellWritten(ws: seq<Written>)
  {
    forall i :: 0 <= i < |ws| ==>
      Spells(ws[i].text, ws[i].ty) && AreGaps(ws[i].gaps)
      && (if ws[i].gaps == [] then i == |ws| - 1 else ws[i].gaps[0].Blank?)
  }

  function Text(ws: seq<Written>): string
  {
    if ws == [] then "" else ws[0].text + (GapText(ws[0].gaps) + Text(ws[1..]))
  }

  function TypesOf(ws: seq<Written>): seq<TokenType>
  {
    seq(|ws|, i requires 0 <= i < |ws| => ws[i].ty)
  }

  // ---------------------------------------------------------------- gaps are skipped

  predicate Free(rest: string) { rest == "" || IsBlank(rest[0]) }

  lemma BlankListed(c: char)
    ensures c in BLANKS <==> IsBlank(c)
  {
    assert c in BLANKS <==>
      c in " ;\t\n\U{0B}\U{0C}\r\U{85}\U{A0}\U{1680}\U{2000}\U{2001}\U{2002}\U{2003}\U{2004}\U{2005}\U{2006}" ||
      c in "\U{2007}\U{2008}\U{2009}\U{200A}\U{2028}\U{2029}\U{202F}\U{205F}\U{3000}";
  }

  lemma OneGap(g: Gap, s: string)
    requires IsGap(g)
    ensures SkipBlanks((match g case Blank(c) => [c] case Comment(text) => "//" + text + "\n") + s) == SkipBlanks(s)
  {
    match g {
      case Blank(c) =>
        BlankListed(c);
        hide IsBlank, BLANKS;
        assert ([c] + s)[1..] == s;
      case Comment(text) =>
        assert !IsBlank('/') && IsBlank('\n');
        hide IsBlank;
        var t := "//" + text + "\n" + s;
        assert t[0] == '/' && t[1] == '/' && t[1..] == "/" + text + "\n" + s;
        var k := 1 + |text|;
        assert t[1..][..k] == "/" + text && t[1..][k] == '\n' && t[1..][k..] == "\n" + s;
        IndexUnique('\n', t[1..], k);
        assert ("\n" + s)[1..] == s;
    }
  }

  lemma {:induction false} GapsSkipped(gaps: seq<Gap>, s: string)
    requires AreGaps(gaps)
    ensures SkipBlanks(GapText(gaps) + s) == SkipBlanks(s)
    decreases |gaps|
  {
    hide IsGap, SkipBlanks;
    if gaps == [] {
      assert GapText(gaps) + s == s;
    } else {
      var first := match gaps[0] case Blank(c) => [c] case Comment(text) => "//" + text + "\n";
      assert GapText(gaps) + s == first + (GapText(gaps[1..]) + s);
      OneGap(gaps[0], GapText(gaps[1..]) + s);
      GapsSkipped(gaps[1..], s);
    }
  }

  lemma FreeBehind(gaps: seq<Gap>, s: string)
    requires AreGaps(gaps) && if gaps == [] then s == "" else gaps[0].Blank?
    ensures Free(GapText(gaps) + s)
  {
    if gaps != [] {
      BlankListed(gaps[0].c);
      hide IsBlank, BLANKS;
      assert IsGap(gaps[0]);
      assert (GapText(gaps) + s)[0] == gaps[0].c;
    }
  }

  // ---------------------------------------------------------------- one token

  predicate ReadsAs(text: string, rest: string, ty: TokenType)
  {
    var s := text + rest;
    s != "" && SkipBlanks(s) == s && ReadOne(s) == Scan([ty], rest, true)
  }

  lemma BlankIsNothing(c: char)
    requires IsBlank(c)
    ensures !IsNameChar(c) && !IsDigit(c) && c != '.' && c != '/' && !IsSign(c)
  {
  }

  predicate Shaped(t: string)
  {
    && 1 <= |t| <= 2 && IsSign(t[0]) && SignOf(t) == Sign(t) && t != "//"
    && (|t| == 2 ==> t[1] in Seconds(t[0]))
  }

  lemma SingleShape(i: nat)
    requires i < 12
    ensures Shaped(SIGNS[i])
  {
  }

  lemma ArithmeticShape(i: nat)
    requires 12 <= i < 24
    ensures Shaped(SIGNS[i])
  {
  }

  lemma OtherShape(i: nat)
    requires 24 <= i < |SIGNS|
    ensures Shaped(SIGNS[i])
  {
  }

  lemma SignShape(i: nat)
    requires i < |SIGNS|
    ensures Shaped(SIGNS[i])
  {
    hide Shaped;
    if i < 12 {
      SingleShape(i);
    } else if i < 24 {
      ArithmeticShape(i);
    } else {
      OtherShape(i);
    }
  }

  lemma SecondIsSign(c: char, d: char)
    requires d in Seconds(c)
    ensures IsSign(d)
  {
  }

  lemma SignIsPlain(c: char)
    requires IsSign(c)
    ensures !IsBlank(c) && !IsQuote(c)
  {
  }

  lemma SignsRead(text: string, rest: string, ty: TokenType)
    requires 1 <= |text| <= 2 && IsSign(text[0]) && SignOf(text) == ty && text != "//" && Free(rest)
    requires |text| == 2 ==> text[1] in Seconds(text[0])
    ensures ReadsAs(text, rest, ty)
  {
    var s := text + rest;
    SignIsPlain(text[0]);
    if rest != "" {
      BlankIsNothing(rest[0]);
      if |text| == 1 && rest[0] in Seconds(text[0]) {
        SecondIsSign(text[0], rest[0]);
      }
      assert s[|text|] == rest[0];
    }
    hide IsSign, IsBlank, IsQuote, Seconds, SignOf;
    assert s[0] == text[0] && s[..|text|] == text && s[|text|..] == rest;
    assert |text| == 2 ==> s[1] == text[1];
    SkipNothing(s);
  }

  lemma SignRead(text: string, rest: string)
    requires text in SIGNS && Free(rest)
    ensures ReadsAs(text, rest, Sign(text))
  {
    var i: nat :| i < |SIGNS| && SIGNS[i] == text;
    SignShape(i);
    hide IsSign, Seconds, SignOf, ReadsAs, SIGNS;
    SignsRead(text, rest, Sign(text));
  }

  lemma {:induction false} NameRun(s: string, rest: string)
    requires (forall i :: 0 <= i < |s| ==> IsNameChar(s[i])) && (rest == "" || !IsNameChar(rest[0]))
    ensures NameLength(s + rest) == |s|
    decreases |s|
  {
    hide IsNameChar;
    if s == "" {
      assert s + rest == rest;
    } else {
      assert (s + rest)[0] == s[0] && (s + rest)[1..] == s[1..] + rest;
      NameRun(s[1..], rest);
    }
  }

  lemma LetterStarts(c: char)
    requires IsLetter(c)
    ensures IsNameStart(c) && !IsSign(c) && !IsDigit(c) && !IsQuote(c) && !IsBlank(c) && c != '/'
  {
  }

  lemma WordRead(text: string, rest: string)
    requires IsName(text) && Free(rest)
    ensures ReadsAs(text, rest, WordOf(text))
  {
    var s := text + rest;
    LetterStarts(text[0]);
    if rest != "" {
      BlankIsNothing(rest[0]);
    }
    forall i | 0 <= i < |text| ensures IsNameChar(text[i]) {
    }
    hide IsBlank, IsSign, IsQuote, IsDigit, IsNameStart, IsNameChar, WordOf, IsLetter;
    assert s[0] == text[0] && s[1..] == text[1..] + rest;
    NameRun(text[1..], rest);
    assert s[..|text|] == text && s[|text|..] == rest;
    SkipNothing(s);
  }

  lemma KeywordListed(text: string)
    requires IsKeyword(text)
    ensures text in WORDS || text == "fn"
  {
  }

  lemma ValueNamed(i: nat)
    requires i < |VALUES|
    ensures IsName(VALUES[i]) && IsKeyword(VALUES[i]) && VALUES[i] != "fn"
  {
  }

  lemma DeclaringNamed(i: nat)
    requires i < |DECLARING|
    ensures IsName(DECLARING[i]) && IsKeyword(DECLARING[i]) && DECLARING[i] != "fn"
  {
  }

  lemma ControlNamed(i: nat)
    requires i < |CONTROL|
    ensures IsName(CONTROL[i]) && IsKeyword(CONTROL[i]) && CONTROL[i] != "fn"
  {
  }

  lemma FurtherNamed(i: nat)
    requires i < |FURTHER|
    ensures IsName(FURTHER[i]) && IsKeyword(FURTHER[i]) && FURTHER[i] != "fn"
  {
  }

  lemma WordNamed(word: string)
    requires word in WORDS
    ensures IsName(word) && IsKeyword(word) && word != "fn"
  {
    hide IsName, IsKeyword, VALUES, DECLARING, CONTROL, FURTHER;
    var a, b, c := |VALUES|, |DECLARING|, |CONTROL|;
    var i: nat :| i < |WORDS| && WORDS[i] == word;
    if i < a {
      ValueNamed(i);
    } else if i < a + b {
      DeclaringNamed(i - a);
    } else if i < a + b + c {
      ControlNamed(i - a - b);
    } else {
      FurtherNamed(i - a - b - c);
    }
  }

  lemma FnIsKeyword()
    ensures IsKeyword("fn")
  {
  }

  lemma KeywordIs(text: string)
    ensures IsKeyword(text) <==> text in WORDS || text == "fn"
  {
    hide IsKeyword;
    if IsKeyword(text) {
      KeywordListed(text);
    }
    if text in WORDS {
      WordNamed(text);
    }
    assert IsKeyword("fn") by { FnIsKeyword(); }
  }

  lemma PlainWordRead(word: string, rest: string)
    requires word in WORDS && Free(rest)
    ensures ReadsAs(word, rest, Keyword(word))
  {
    WordNamed(word);
    hide IsKeyword, ReadsAs, Free, IsName, WORDS;
    WordRead(word, rest);
  }

  lemma FnIsName()
    ensures IsName("fn")
  {
  }

  lemma KeywordRead(text: string, rest: string, word: string)
    requires ((text == word && word in WORDS) || (text, word) in ALIASES) && Free(rest)
    ensures ReadsAs(text, rest, Keyword(word))
  {
    hide IsKeyword, ReadsAs, Free, IsName, WORDS;
    if text == word && word in WORDS {
      PlainWordRead(word, rest);
    } else if text == "fn" {
      FnIsName();
      FnIsKeyword();
      WordRead(text, rest);
    } else {
      assert IsSign(text[0]) && text[1] in Seconds(text[0]);
      SignsRead(text, rest, Keyword(word));
    }
  }

  lemma {:induction false} NumberRun(s: string, rest: string)
    requires DigitsAndDots(s) && (rest == "" || (!IsDigit(rest[0]) && rest[0] != '.'))
    ensures NumberLength(s + rest) == |s|
    decreases |s|
  {
    if s == "" {
      assert s + rest == rest;
    } else {
      var t := s + rest;
      assert t[0] == s[0] && t[1..] == s[1..] + rest;
      assert |t| > 1 ==> t[1] == if |s| > 1 then s[1] else rest[0];
      NumberRun(s[1..], rest);
    }
  }

  lemma DigitStarts(c: char)
    requires '0' <= c <= '9'
    ensures IsDigit(c) && !IsSign(c) && !IsQuote(c) && !IsBlank(c) && c != '/'
  {
  }

  lemma NumberRead(text: string, rest: string)
    requires IsNumeral(text) && Free(rest)
    ensures ReadsAs(text, rest, Number(text))
  {
    var s := text + rest;
    DigitStarts(text[0]);
    if rest != "" {
      BlankIsNothing(rest[0]);
    }
    hide IsBlank, IsSign, IsQuote;
    assert s[0] == text[0] && s[1..] == text[1..] + rest;
    NumberRun(text[1..], rest);
    assert s[..|text|] == text && s[|text|..] == rest;
    SkipNothing(s);
  }

  lemma PieceRead(quote: char, p: Piece, s: string, text: string, types: seq<TokenType>)
    requires Writable(quote, p)
    ensures ReadQuoted((if p.Raw? then [p.c] else ['\\', p.c]) + s, quote, text, types)
      == ReadQuoted(s, quote, text + [Character(p)], types)
  {
    match p {
      case Raw(c) => CharHead(c, s, quote);
      case Escaped(c) =>
        assert IsEscape(c) && Unescape(c) == Character(p);
        EscapeHead(c, s, quote);
    }
  }

  lemma ClosingRead(quote: char, rest: string, text: string)
    requires IsQuote(quote)
    ensures ReadQuoted([quote] + rest, quote, text, []) == Quoted(text, [], rest, true)
  {
    ClosingHead(rest, quote);
    hide HeadOf;
  }

  lemma {:induction false} PiecesRead(quote: char, pieces: seq<Piece>, rest: string, text: string)
    requires IsQuote(quote) && forall i :: 0 <= i < |pieces| ==> Writable(quote, pieces[i])
    ensures ReadQuoted(PiecesText(pieces) + ([quote] + rest), quote, text, [])
      == Quoted(text + Characters(pieces), [], rest, true)
    decreases |pieces|
  {
    hide HeadOf, Writable, Character, ReadQuoted;
    var tail := [quote] + rest;
    if pieces == [] {
      assert PiecesText(pieces) + tail == tail && text + Characters(pieces) == text;
      ClosingRead(quote, rest, text);
    } else {
      var p := pieces[0];
      var first := if p.Raw? then [p.c] else ['\\', p.c];
      assert PiecesText(pieces) + tail == first + (PiecesText(pieces[1..]) + tail);
      PieceRead(quote, p, PiecesText(pieces[1..]) + tail, text, []);
      PiecesRead(quote, pieces[1..], rest, text + [Character(p)]);
      assert Characters(pieces) == [Character(p)] + Characters(pieces[1..]);
    }
  }

  lemma QuoteIsPlain(c: char)
    requires IsQuote(c)
    ensures !IsBlank(c) && c != '/'
  {
  }

  lemma StringRead(text: string, quote: char, pieces: seq<Piece>, rest: string)
    requires IsQuoted(text, quote, pieces)
    ensures ReadsAs(text, rest, Str(Characters(pieces)))
  {
    assert IsQuote(quote);
    QuoteIsPlain(quote);
    hide IsBlank, IsQuote, Characters, ReadQuoted, Writable;
    var s := text + rest;
    assert s[0] == quote && s[1..] == PiecesText(pieces) + ([quote] + rest);
    PiecesRead(quote, pieces, rest, "");
    assert "" + Characters(pieces) == Characters(pieces);
    SkipNothing(s);
  }

  /** However a token is written, it is read back, and nothing more, in front of a blank or the end. */
  lemma SpellingRead(text: string, ty: TokenType, rest: string)
    requires Spells(text, ty) && Free(rest)
    ensures ReadsAs(text, rest, ty)
  {
    hide ReadsAs, Free, IsNumeral, IsQuoted, IsKeyword, Characters;
    match ty {
      case Sign(sign) => SignRead(text, rest);
      case Keyword(word) => KeywordRead(text, rest, word);
      case Identifier(name) =>
        KeywordIs(text);
        WordRead(text, rest);
      case Number(digits) => NumberRead(text, rest);
      case Str(chars) =>
        var quote, pieces :| IsQuoted(text, quote, pieces) && chars == Characters(pieces);
        StringRead(text, quote, pieces, rest);
    }
  }

  // ---------------------------------------------------------------- all tokens

  lemma GapsGone(gaps: seq<Gap>, s: string)
    requires AreGaps(gaps)
    ensures Lexed(GapText(gaps) + s) == Lexed(s)
  {
    hide SkipBlanks, ReadOne;
    GapsSkipped(gaps, s);
    LexedStep(GapText(gaps) + s);
    LexedStep(s);
  }

  lemma NothingSkipped()
    ensures SkipBlanks("") == ""
  {
  }

  lemma EofUnwritten(text: string)
    ensures !Spells(text, Eof)
  {
  }

  lemma {:induction false} WrittenRead(ws: seq<Written>)
    requires WellWritten(ws)
    ensures Lexed(Text(ws)) == TypesOf(ws) + [Eof]
    decreases |ws|
  {
    hide Spells, Lexed, SkipBlanks, ReadOne, AreGaps, Free;
    LexedStep(Text(ws));
    if ws == [] {
      assert SkipBlanks("") == "" by { NothingSkipped(); }
    } else {
      var w, more := ws[0], ws[1..];
      assert Text(more) == "" || w.gaps != [];
      var rest := GapText(w.gaps) + Text(more);
      FreeBehind(w.gaps, Text(more));
      SpellingRead(w.text, w.ty, rest);
      assert w.ty != Eof by { EofUnwritten(w.text); }
      GapsGone(w.gaps, Text(more));
      WrittenRead(more);
      assert TypesOf(ws) == [w.ty] + TypesOf(more);
    }
  }

  /** Any tokens, however they are written and whatever stands between them, are what the text lexes
      to. */
  lemma TokensReadBack(first: seq<Gap>, ws: seq<Written>)
    requires AreGaps(first) && WellWritten(ws)
    ensures Lexed(GapText(first) + Text(ws)) == TypesOf(ws) + [Eof]
  {
    hide Lexed, AreGaps, WellWritten;
    GapsGone(first, Text(ws));
    WrittenRead(ws);
  }

  lemma SignListed(c: char)
    ensures IsSign(c) <==> c in "(){}[],:@^~?-+*/%&|.!=<>"
  {
  }

  // A character that begins nothing ends the tokens.
  lemma StrangeEnds(c: char, s: string)
    requires c !in BLANKS && c !in "(){}[],:@^~?-+*/%&|.!=<>" && !IsLetter(c)
    requires !('0' <= c <= '9') && c != '"' && c != '\''
    ensures Lexed([c] + s) == [Eof]
  {
    BlankListed(c);
    SignListed(c);
    assert !IsNameStart(c) && c != '/';
    hide IsBlank, IsSign, Lexed, BLANKS;
    var t := [c] + s;
    LexedStep(t);
    SkipNothing(t);
    assert t[0] == c;
  }
}
