/** When a string literal with expressions lexes as the sum that it stands for
    (crates/eronom-frontend/src/lexer.rs): exactly, over every text that may follow. */
module Literals {
  import opened L = Lexer

  // Does the literal lex in front of the text as the sum of its parts written out?
  predicate LexesAsSum(quote: char, first: string, parts: seq<Part>, tail: string)
  {
    Lexed(LiteralText(quote, first, parts) + tail) == Lexed(PlainText(quote, first) + SumText(quote, parts) + tail)
  }

  // The literal's own text does not matter.
  lemma SumAlone(quote: char, first: string, parts: seq<Part>, tail: string)
    requires IsQuote(quote) && Braceless(parts)
    ensures LexesAsSum(quote, first, parts, tail) <==>
      Lexed(SumText(quote, parts) + tail) == SumTypes(parts) + Lexed(tail)
  {
    hide Lexed, LiteralText, PlainText, SumText, SumTypes;
    LiteralTokens(quote, first, parts, tail);
    var sum := SumText(quote, parts) + tail;
    assert PlainText(quote, first) + SumText(quote, parts) + tail == PlainText(quote, first) + sum;
    PlainTokens(quote, first, sum);
    assert [Str(first)] + SumTypes(parts) + Lexed(tail) == [Str(first)] + (SumTypes(parts) + Lexed(tail));
    if Lexed(sum) != SumTypes(parts) + Lexed(tail) {
      SameBehind([Str(first)], Lexed(sum), SumTypes(parts) + Lexed(tail));
    }
  }

  // ---------------------------------------------------------------- a sum that stands by itself

  lemma {:induction false} OpenCommentBlank(e: string)
    requires CommentOpen(e)
    ensures SkipBlanks(e + " ") == "" && SkipBlanks(e) == ""
    decreases |e|
  {
    SpaceIsBlank();
    hide IsSpace, IsBlank;
    var s := e + " ";
    assert s[1..] == e[1..] + " ";
    if IsBlank(e[0]) {
      OpenCommentBlank(e[1..]);
    } else {
      var n := IndexOf('\n', e[1..]);
      if n == |e| - 1 {
        assert e[1..][..n] == e[1..];
        NotInEither('\n', e[1..], " ");
        IndexAbsent('\n', s[1..]);
        assert s[1..][|s[1..]|..] == "" && e[1..][n..] == "";
      } else {
        IndexLocal('\n', e[1..], " ");
        assert s[1..][n..] == e[1..][n..] + " ";
        OpenCommentBlank(e[1..][n..]);
      }
    }
  }

  predicate Stops(e: string)
  {
    Lexed(e + REVEALING) == Alone(e) + [Eof] && Lexed(e + " ") == Alone(e) + [Eof]
  }

  lemma CommentStops(e: string)
    requires CommentOpen(e)
    ensures Stops(e)
  {
    hide SkipBlanks, CommentOpen, ReadOne, Lexed, Alone;
    OpenComment(e);
    OpenCommentBlank(e);
    LexedStep(e);
    LexedStep(e + REVEALING);
    LexedStep(e + " ");
    EndsOnce(e);
    assert Alone(e) + [Eof] == [Eof];
  }

  lemma IllegalFirst(t: string, r: string)
    requires t != "" && SkipBlanks(t + r) == t + r && !IsQuote(t[0]) && !ReadPlain(t).complete
    ensures Lexed(t + r) == [Eof]
  {
    hide SkipBlanks, IsSign, IsDigit, IsNameStart, WordOf, SignOf, Seconds, NumberLength, NameLength;
    LexedStep(t + r);
    assert (t + r)[0] == t[0];
  }

  lemma SkipNothingBlank(t: string)
    requires t != "" && SkipBlanks(t) == t
    ensures SkipBlanks(t + " ") == t + " "
  {
    hide IsSpace;
    assert |t| == 1 ==> (t + " ")[1] == ' ';
  }

  lemma EmptySkip()
    ensures SkipBlanks("") == ""
  {
  }

  lemma OpenLiteral(t: string)
    requires t != "" && SkipBlanks(t) == t && IsQuote(t[0]) && !ReadOne(t).complete
    ensures BeforeEnd(Lexed(t + REVEALING)).Str?
  {
    hide ReadQuoted, SkipBlanks, Lexed;
    var s := t + REVEALING;
    assert s[1..] == t[1..] + REVEALING;
    SkipNothing(t);
    LexedStep(s);
    LexedStep("");
    assert SkipBlanks("") == "" by { EmptySkip(); }
    OpenQuoted(t[1..], t[0], "", []);
    var q := ReadQuoted(s[1..], s[0], "", []);
    QuotedHasNoEof(s[1..], s[0], "", []);
    FinishHasNoEof(q.text, q.types);
  }

  lemma OpenOneEnds(t: string)
    requires t != "" && SkipBlanks(t) == t && !ReadOne(t).complete
    ensures BeforeEnd(Lexed(t + REVEALING)).Str? || Stops(t)
  {
    hide SkipBlanks, ReadQuoted, ReadPlain, Lexed, Alone;
    if IsQuote(t[0]) {
      OpenLiteral(t);
    } else {
      SkipNothing(t);
      SkipNothingBlank(t);
      IllegalFirst(t, REVEALING);
      IllegalFirst(t, " ");
      assert t + "" == t;
      IllegalFirst(t, "");
      EndsOnce(t);
      assert Alone(t) == [] && Alone(t) + [Eof] == [Eof];
    }
  }

  // Nor does a complete token.
  lemma OneMore(e: string)
    requires !CommentOpen(e) && SkipBlanks(e) != "" && ReadOne(SkipBlanks(e)).complete
    ensures var rest := ReadOne(SkipBlanks(e)).rest;
      && (BeforeEnd(Lexed(rest + REVEALING)).Str? ==> BeforeEnd(Lexed(e + REVEALING)).Str?)
      && (Stops(rest) ==> Stops(e))
  {
    hide SkipBlanks, CommentOpen, ReadOne, Lexed, Alone;
    var t := SkipBlanks(e);
    var one := ReadOne(t);
    BlanksLocal(e, REVEALING);
    BlanksLocal(e, " ");
    OneLocalRest(t, REVEALING);
    OneLocalRest(t, " ");
    OneHasNoEof(t);
    LexedStep(e + REVEALING);
    LexedStep(e + " ");
    AloneStep(e);
    assert one.types + (Alone(one.rest) + [Eof]) == Alone(e) + [Eof];
  }

  // Blanks in front change nothing.
  lemma Skipped(e: string)
    requires !CommentOpen(e) && SkipBlanks(e) != ""
    ensures var t := SkipBlanks(e);
      Lexed(e + REVEALING) == Lexed(t + REVEALING) && (Stops(t) <==> Stops(e))
  {
    hide SkipBlanks, CommentOpen, ReadOne, Lexed;
    var t := SkipBlanks(e);
    BlanksLocal(e, REVEALING);
    BlanksLocal(e, " ");
    SkipTwice(e);
    SkipNothing(t);
    SkipNothingBlank(t);
    LexedStep(e + REVEALING);
    LexedStep(t + REVEALING);
    LexedStep(e + " ");
    LexedStep(t + " ");
    LexedStep(e);
    LexedStep(t);
  }

  // A text that is not closed loses its end in what follows, or ends the tokens early.
  lemma {:induction false} OpenEnds(e: string)
    requires !Closed(e)
    ensures BeforeEnd(Lexed(e + REVEALING)).Str? || Stops(e)
    decreases |e|
  {
    hide SkipBlanks, CommentOpen, ReadOne, Lexed, Alone, Stops, BeforeEnd;
    if CommentOpen(e) {
      CommentStops(e);
    } else {
      SkipTwice(e);
      var t := SkipBlanks(e);
      if ReadOne(t).complete {
        OpenEnds(ReadOne(t).rest);
        OneMore(e);
      } else {
        OpenOneEnds(t);
        Skipped(e);
      }
    }
  }

  // The sum can be lexed on its own, in front of anything, and to the tokens of the literal.
  predicate SumStands(quote: char, parts: seq<Part>)
  {
    Closed(SumText(quote, parts)) && Alone(SumText(quote, parts)) == SumTypes(parts)
  }

  // A blank in front changes nothing.
  lemma BlankFirst(r: string)
    requires Spaced(r)
    ensures Lexed(r) == Lexed(r[1..])
  {
    SpaceIsBlank();
    hide IsBlank, ReadOne;
    LexedStep(r);
    LexedStep(r[1..]);
  }

  lemma EmptyTokens()
    ensures Lexed("") == [Eof]
  {
  }

  lemma LastName(front: seq<TokenType>)
    ensures BeforeEnd(front + Lexed("x}y")) == WordOf("y") && !WordOf("y").Str?
    ensures |front + Lexed("x}y")| == |front| + 4
  {
    hide Lexed, WordOf;
    RevealingTokens();
  }

  lemma SameFront(a: seq<TokenType>, b: seq<TokenType>, end: seq<TokenType>)
    requires a + end == b + end
    ensures a == b
  {
    assert |a| == |b| && (a + end)[..|a|] == a && (b + end)[..|b|] == b;
  }

  /** A literal lexes as its sum, whatever follows, exactly when the sum stands by itself. */
  lemma SumExactly(quote: char, first: string, parts: seq<Part>)
    requires IsQuote(quote) && Braceless(parts)
    ensures (forall r :: Spaced(r) ==> LexesAsSum(quote, first, parts, r)) <==> SumStands(quote, parts)
  {
    hide LexesAsSum, SumText, SumTypes, Closed, Lexed, Alone;
    var sum := SumText(quote, parts);
    if SumStands(quote, parts) {
      forall r | Spaced(r) ensures LexesAsSum(quote, first, parts, r) {
        ClosedLocal(sum, r);
        BlankFirst(r);
        SumAlone(quote, first, parts, r);
      }
    }
    if forall r :: Spaced(r) ==> LexesAsSum(quote, first, parts, r) {
      assert Spaced(REVEALING) && Spaced(" ") && REVEALING[1..] == "x}y" && " "[1..] == "";
      SumAlone(quote, first, parts, REVEALING);
      SumAlone(quote, first, parts, " ");
      BlankFirst(REVEALING);
      BlankFirst(" ");
      RevealingTokens();
      EmptyTokens();
      if !Closed(sum) {
        OpenEnds(sum);
        LastName(SumTypes(parts));
      }
      ClosedLocal(sum, " ");
      SameFront(Alone(sum), SumTypes(parts), [Eof]);
    }
  }

  // ---------------------------------------------------------------- a chunk read as code

  // What stands behind the expression's text in a sum, seen from inside a chunk: the rest of the
  // chunk, the quote, and a text that shows when something takes it in.
  function Behind(quote: char, v: string): string
  {
    Escaped(quote, v) + ([quote] + REVEALING)
  }

  lemma BehindStep(quote: char, v: string)
    requires v != ""
    ensures Behind(quote, v) == (if NeedsEscape(v[0], quote) then ['\\', v[0]] else [v[0]]) + Behind(quote, v[1..])
    ensures Behind(quote, v)[0] == if NeedsEscape(v[0], quote) then '\\' else v[0]
    ensures !NeedsEscape(v[0], quote) ==> Behind(quote, v)[1..] == Behind(quote, v[1..])
  {
    var w := [quote] + REVEALING;
    var c := if NeedsEscape(v[0], quote) then ['\\', v[0]] else [v[0]];
    assert Escaped(quote, v) + w == c + (Escaped(quote, v[1..]) + w);
  }

  lemma BehindEmpty(quote: char)
    ensures Behind(quote, "") == [quote] + REVEALING
  {
  }

  // A piece of plain characters of the chunk.
  ghost predicate PlainRun(quote: char, v: string, n: nat)
  {
    n <= |v| && n <= |Behind(quote, v)| && Behind(quote, v)[n..] == Behind(quote, v[n..])
  }

  lemma RunOn(quote: char, v: string, n: nat)
    requires v != "" && !NeedsEscape(v[0], quote) && PlainRun(quote, v[1..], n)
    ensures PlainRun(quote, v, n + 1)
  {
    hide Behind;
    BehindStep(quote, v);
    assert v[1..][n..] == v[n + 1..];
    assert Behind(quote, v)[n + 1..] == Behind(quote, v)[1..][n..];
  }

  lemma {:induction false} NameRun(quote: char, v: string)
    requires IsQuote(quote)
    ensures PlainRun(quote, v, NameLength(Behind(quote, v)))
    decreases |v|
  {
    hide Behind;
    if v == "" {
      BehindEmpty(quote);
      assert v[0..] == v;
    } else {
      BehindStep(quote, v);
      if IsNameChar(Behind(quote, v)[0]) {
        NameRun(quote, v[1..]);
        RunOn(quote, v, NameLength(Behind(quote, v[1..])));
      } else {
        assert v[0..] == v;
      }
    }
  }

  lemma {:induction false} NumberRun(quote: char, v: string)
    requires IsQuote(quote)
    ensures PlainRun(quote, v, NumberLength(Behind(quote, v)))
    decreases |v|
  {
    hide Behind;
    if v == "" {
      BehindEmpty(quote);
      assert v[0..] == v;
    } else {
      BehindStep(quote, v);
      if NumberLength(Behind(quote, v)) > 0 {
        NumberRun(quote, v[1..]);
        RunOn(quote, v, NumberLength(Behind(quote, v[1..])));
      } else {
        assert v[0..] == v;
      }
    }
  }

  lemma LineLater(quote: char, v: string, more: string)
    requires v != "" && v[0] != '\n' && more == Behind(quote, v[1..])
    ensures
      var s := Behind(quote, v);
      && s[IndexOf('\n', s)..] == more[IndexOf('\n', more)..]
      && (IndexOf('\n', s) == |s| <==> IndexOf('\n', more) == |more|)
  {
    hide Behind;
    BehindStep(quote, v);
    var s := Behind(quote, v);
    if NeedsEscape(v[0], quote) {
      assert s[1..][1..] == more;
    }
  }

  // What follows a line break.
  lemma {:induction false} LineRun(quote: char, v: string)
    requires IsQuote(quote)
    ensures
      var s := Behind(quote, v);
      IndexOf('\n', s) == |s| || exists k: nat :: k <= |v| && s[IndexOf('\n', s)..] == Behind(quote, v[k..])
    decreases |v|
  {
    hide Behind;
    var s := Behind(quote, v);
    if v == "" {
      BehindEmpty(quote);
      NotInEither('\n', [quote], REVEALING);
      IndexAbsent('\n', s);
    } else {
      BehindStep(quote, v);
      LineRun(quote, v[1..]);
      var more := Behind(quote, v[1..]);
      if s[0] == '\n' {
        assert v[0..] == v;
      } else {
        LineLater(quote, v, more);
        if k: nat :| k <= |v[1..]| && more[IndexOf('\n', more)..] == Behind(quote, v[1..][k..]) {
          assert v[1..][k..] == v[k + 1..];
        }
      }
    }
  }

  // A literal that the other quote opens ends inside the chunk, or never.
  lemma {:induction false} OtherQuote(quote: char, other: char, v: string, text: string, types: seq<TokenType>)
    requires IsQuote(quote) && IsQuote(other) && quote != other
    ensures
      var q := ReadQuoted(Behind(quote, v), other, text, types);
      && q.types == types
      && (if q.complete then exists k: nat :: k <= |v| && q.rest == Behind(quote, v[k..]) else q.rest == "")
    decreases |v|
  {
    hide Behind, HeadOf, Opened;
    if v == "" {
      BehindEmpty(quote);
      CharHead(quote, REVEALING, other);
      RevealingRead(other, text + [quote], types);
    } else {
      BehindStep(quote, v);
      var more := Behind(quote, v[1..]);
      if NeedsEscape(v[0], quote) {
        EscapeHead(v[0], more, other);
      } else if v[0] == other {
        ClosingHead(more, other);
      } else {
        CharHead(v[0], more, other);
      }
      if v[0] != other {
        var c := if NeedsEscape(v[0], quote) then Unescape(v[0]) else v[0];
        OtherQuote(quote, other, v[1..], text + [c], types);
        var q := ReadQuoted(more, other, text + [c], types);
        if q.complete {
          var k: nat :| k <= |v[1..]| && q.rest == Behind(quote, v[1..][k..]);
          assert v[1..][k..] == v[k + 1..];
        }
      }
    }
  }

  const BRACE := Sign("}")

  // Either no brace comes from here on, or it comes from further on.
  ghost predicate Passes(quote: char, v: string, k: nat)
  {
    && k <= |v|
    && (BRACE in Lexed(Behind(quote, v)) ==> k > 0 && BRACE in Lexed(Behind(quote, v[k..])))
  }

  lemma LexedBlank(s: string)
    requires s != "" && IsBlank(s[0])
    ensures Lexed(s) == Lexed(s[1..])
  {
    hide IsBlank, ReadOne;
    LexedStep(s);
    LexedStep(s[1..]);
  }

  lemma CommentPasses(quote: char, v: string) returns (k: nat)
    requires IsQuote(quote) && v != "" && v[0] == '/' && StartsComment(Behind(quote, v))
    ensures Passes(quote, v, k)
  {
    assert !IsBlank('/') && !NeedsEscape('/', quote);
    hide Behind, IsBlank, NeedsEscape, ReadOne;
    var s := Behind(quote, v);
    BehindStep(quote, v);
    LineRun(quote, v[1..]);
    var n := IndexOf('\n', s[1..]);
    LexedStep(s);
    LexedStep(s[1..][n..]);
    k := 0;
    if n < |s[1..]| {
      var j: nat :| j <= |v[1..]| && s[1..][n..] == Behind(quote, v[1..][j..]);
      assert v[1..][j..] == v[j + 1..];
      k := j + 1;
    } else {
      assert s[1..][n..] == "";
      EmptyTokens();
    }
  }

  lemma OtherPasses(quote: char, v: string) returns (k: nat)
    requires IsQuote(quote) && v != "" && IsQuote(v[0]) && v[0] != quote
    ensures Passes(quote, v, k)
  {
    assert !NeedsEscape(v[0], quote);
    hide Behind, NeedsEscape, ReadQuoted, IsQuote;
    var s := Behind(quote, v);
    BehindStep(quote, v);
    OtherQuote(quote, v[0], v[1..], "", []);
    assert s == [v[0]] + s[1..];
    QuoteFirst(v[0], s[1..]);
    var q := ReadQuoted(s[1..], v[0], "", []);
    k := 0;
    if q.complete {
      var j: nat :| j <= |v[1..]| && q.rest == Behind(quote, v[1..][j..]);
      assert v[1..][j..] == v[j + 1..];
      k := j + 1;
    } else {
      EmptyTokens();
    }
  }

  lemma SignIsNoQuote(c: char)
    requires IsSign(c)
    ensures !IsQuote(c)
  {
  }

  lemma SecondIsPlain(c: char, d: char, quote: char)
    requires d in Seconds(c) && IsQuote(quote)
    ensures d != quote && d != '\\' && !NeedsEscape(d, quote)
  {
  }

  lemma SignPasses(quote: char, v: string) returns (k: nat)
    requires IsQuote(quote) && v != "" && !NeedsEscape(v[0], quote) && IsSign(v[0])
    requires var s := Behind(quote, v); SkipBlanks(s) == s
    ensures Passes(quote, v, k)
  {
    hide Behind, SkipBlanks, IsSign, NumberLength, NameLength;
    var s := Behind(quote, v);
    BehindStep(quote, v);
    SignIsNoQuote(v[0]);
    k := if |s| > 1 && s[1] in Seconds(v[0]) then 2 else 1;
    LexedStep(s);
    if k == 2 {
      SecondIsPlain(v[0], s[1], quote);
      if |v| == 1 {
        BehindEmpty(quote);
      } else {
        BehindStep(quote, v[1..]);
        assert v[1..][1..] == v[2..] && s[1..][1..] == s[2..];
      }
    }
  }

  lemma WordPasses(quote: char, v: string) returns (k: nat)
    requires IsQuote(quote) && v != "" && !NeedsEscape(v[0], quote) && !IsSign(v[0]) && !IsQuote(v[0])
    requires var s := Behind(quote, v); SkipBlanks(s) == s
    ensures Passes(quote, v, k)
  {
    hide Behind, SkipBlanks, IsSign, Seconds, IsDigit, IsNameStart;
    var s := Behind(quote, v);
    BehindStep(quote, v);
    NameRun(quote, v[1..]);
    NumberRun(quote, v[1..]);
    LexedStep(s);
    k := 0;
    if IsDigit(v[0]) {
      k := 1 + NumberLength(s[1..]);
      assert v[1..][k - 1..] == v[k..] && s[1..][k - 1..] == s[k..];
    } else if IsNameStart(v[0]) {
      k := 1 + NameLength(s[1..]);
      WordIsNoEof(s[..k]);
      assert v[1..][k - 1..] == v[k..] && s[1..][k - 1..] == s[k..];
    }
  }

  lemma BackslashStops(s: string)
    requires s != "" && s[0] == '\\'
    ensures Lexed(s) == [Eof]
  {
    LexedStep(s);
  }

  lemma QuoteTakesIn(quote: char)
    requires IsQuote(quote)
    ensures BRACE !in Lexed([quote] + REVEALING)
  {
    hide ReadQuoted, Lexed;
    QuoteFirst(quote, REVEALING);
    RevealingRead(quote, "", []);
    EmptyTokens();
  }

  // Where a chunk is read as code, the text behind it is not.
  lemma {:induction false} ChunkTakesIn(quote: char, v: string)
    requires IsQuote(quote)
    ensures BRACE !in Lexed(Behind(quote, v))
    decreases |v|
  {
    hide Behind, ReadOne, Lexed, IsSign, IsSpace;
    var s := Behind(quote, v);
    if v == "" {
      BehindEmpty(quote);
      QuoteTakesIn(quote);
    } else {
      BehindStep(quote, v);
      var k := 0;
      if NeedsEscape(v[0], quote) {
        BackslashStops(s);
      } else if IsBlank(v[0]) {
        LexedBlank(s);
        k := 1;
      } else if StartsComment(s) {
        k := CommentPasses(quote, v);
      } else if IsQuote(v[0]) {
        k := OtherPasses(quote, v);
      } else if IsSign(v[0]) {
        k := SignPasses(quote, v);
      } else {
        k := WordPasses(quote, v);
      }
      if k > 0 {
        ChunkTakesIn(quote, v[k..]);
      }
    }
  }

  // ---------------------------------------------------------------- tokens without a brace

  predicate Unbraced(ts: seq<TokenType>)
  {
    forall t :: t in ts ==> t != BRACE && (t.Str? ==> '}' !in t.chars)
  }

  lemma OpenedUnbraced(text: string, types: seq<TokenType>, e: string)
    requires Unbraced(types) && '}' !in text && Unbraced(Alone(e))
    ensures Unbraced(Opened(text, types, e))
  {
    hide Alone;
  }

  lemma BracedNot(s: string, quote: char)
    requires '}' !in s
    ensures !HeadOf(s, quote).Braced?
    ensures HeadOf(s, quote).Plain? || HeadOf(s, quote).Escape? ==> '}' !in HeadOf(s, quote).more
  {
    hide IsEscape;
  }

  lemma {:induction false} SkipUnbraced(s: string)
    requires '}' !in s
    ensures '}' !in SkipBlanks(s)
    decreases |s|
  {
    hide IsBlank;
    if s != "" {
      if IsBlank(s[0]) {
        SkipUnbraced(s[1..]);
      } else if StartsComment(s) {
        SkipUnbraced(s[1..][IndexOf('\n', s[1..])..]);
      }
    }
  }

  lemma EofUnbraced()
    ensures Unbraced([Eof]) && Unbraced([])
  {
  }

  lemma FinishUnbraced(text: string, types: seq<TokenType>)
    requires '}' !in text && Unbraced(types)
    ensures Unbraced(Finish(text, types))
  {
  }

  lemma PlainUnbraced(s: string)
    requires s != "" && '}' !in s
    ensures Unbraced(ReadPlain(s).types) && '}' !in ReadPlain(s).rest
  {
    hide NumberLength, NameLength, Seconds, IsSign, IsDigit, IsNameStart, IsKeyword;
    assert s[..1][0] == s[0];
  }

  lemma JoinUnbraced(a: seq<TokenType>, b: seq<TokenType>)
    requires Unbraced(a) && Unbraced(b)
    ensures Unbraced(a + b)
  {
  }

  // A text without a brace has no token with one.
  lemma {:induction false} QuotedUnbraced(s: string, quote: char, text: string, types: seq<TokenType>)
    requires '}' !in s && '}' !in text && Unbraced(types)
    ensures var q := ReadQuoted(s, quote, text, types); '}' !in q.text && Unbraced(q.types) && '}' !in q.rest
    decreases |s|, 0
  {
    hide Opened, Unbraced, Alone;
    BracedNot(s, quote);
    match HeadOf(s, quote)
    case Plain(c, more) => QuotedUnbraced(more, quote, text + [c], types);
    case Escape(c, more) => QuotedUnbraced(more, quote, text + [Unescape(c)], types);
    case BracedOpen(e) =>
      AloneUnbraced(e);
      OpenedUnbraced(text, types, e);
    case _ =>
  }

  lemma {:induction false} LexedUnbraced(s: string)
    requires '}' !in s
    ensures Unbraced(Lexed(s))
    decreases |s|, 2
  {
    hide SkipBlanks, ReadPlain, ReadQuoted, Finish, Unbraced;
    LexedStep(s);
    SkipUnbraced(s);
    EofUnbraced();
    var t := SkipBlanks(s);
    if t != "" {
      if IsQuote(t[0]) {
        QuotedUnbraced(t[1..], t[0], "", []);
        var q := ReadQuoted(t[1..], t[0], "", []);
        FinishUnbraced(q.text, q.types);
      } else {
        PlainUnbraced(t);
      }
      var one := ReadOne(t);
      LexedUnbraced(one.rest);
      JoinUnbraced(one.types, Lexed(one.rest));
    }
  }

  lemma AloneUnbraced(e: string)
    requires '}' !in e
    ensures Unbraced(Alone(e))
    decreases |e|, 3
  {
    hide Lexed;
    LexedUnbraced(e);
  }

  // ---------------------------------------------------------------- an open expression in a sum

  // How an open literal ends: after text, or inside an open expression.
  datatype OpenEnd = AfterText(text: string, types: seq<TokenType>)
                   | InBraces(text: string, types: seq<TokenType>, expr: string)

  // The tokens of a literal that ends there.
  function TypesOf(end: OpenEnd): seq<TokenType>
  {
    match end
    case AfterText(text, types) => Finish(text, types)
    case InBraces(text, types, e) => Finish("", Opened(text, types, e))
  }

  // Reading on from there.
  function ReadOn(end: OpenEnd, quote: char, w: string): Quoted
  {
    match end
    case AfterText(text, types) => ReadQuoted(w, quote, text, types)
    case InBraces(text, types, e) => ReadQuoted(['{'] + (e + w), quote, text, types)
  }

  lemma BracedOpenIs(s: string, quote: char)
    requires HeadOf(s, quote).BracedOpen?
    ensures s[0] == '{' && HeadOf(s, quote).expr == s[1..]
  {
    hide IsEscape;
  }

  // A literal that is not closed is read on in what follows.
  lemma {:induction false} OpenReads(s: string, quote: char, text: string, types: seq<TokenType>, w: string)
    returns (end: OpenEnd)
    requires IsQuote(quote) && !ReadQuoted(s, quote, text, types).complete && Spaced(w)
    requires '}' !in s && Unbraced(types)
    ensures var q := ReadQuoted(s, quote, text, types); Finish(q.text, q.types) == TypesOf(end)
    ensures ReadQuoted(s + w, quote, text, types) == ReadOn(end, quote, w)
    ensures Unbraced(end.types) && (end.InBraces? ==> '}' !in end.expr)
    decreases |s|
  {
    hide HeadOf, Opened, Unescape, Finish, Unbraced;
    var h := HeadOf(s, quote);
    if s == "" {
      assert s + w == w;
      NothingHead(quote);
      end := AfterText(text, types);
    } else if h.BracedOpen? {
      BracedOpenIs(s, quote);
      assert s + w == ['{'] + (s[1..] + w);
      end := InBraces(text, types, s[1..]);
    } else {
      HeadLocal(s, quote, w);
      BracedNot(s, quote);
      match h
      case Plain(c, more) => end := OpenReads(more, quote, text + [c], types, w);
      case Escape(c, more) => end := OpenReads(more, quote, text + [Unescape(c)], types, w);
      case Closing(_) =>
    }
  }

  // What stands behind an expression in its sum, up to the revealing text.
  function SumBehind(quote: char, c: string): string
  {
    if c == "" then " " + REVEALING else " + " + ([quote] + Behind(quote, c))
  }

  lemma PlainRead(c: char, s: string, quote: char, text: string, types: seq<TokenType>)
    requires c != '\\' && c != quote && c != '{'
    ensures ReadQuoted([c] + s, quote, text, types) == ReadQuoted(s, quote, text + [c], types)
  {
    hide HeadOf, Opened;
    CharHead(c, s, quote);
  }

  lemma SignRead(s: string, quote: char, text: string, types: seq<TokenType>)
    requires IsQuote(quote)
    ensures ReadQuoted(" + " + s, quote, text, types) == ReadQuoted(s, quote, text + " + ", types)
  {
    hide ReadQuoted;
    assert " + " + s == [' '] + (['+'] + ([' '] + s)) && text + [' '] + ['+'] + [' '] == text + " + ";
    PlainRead(' ', ['+'] + ([' '] + s), quote, text, types);
    PlainRead('+', [' '] + s, quote, text + [' '], types);
    PlainRead(' ', s, quote, text + [' '] + ['+'], types);
  }

  lemma ClosedHere(s: string, quote: char, text: string, types: seq<TokenType>)
    requires IsQuote(quote)
    ensures ReadQuoted([quote] + s, quote, text, types) == Quoted(text, types, s, true)
  {
    hide HeadOf, Opened;
    ClosingHead(s, quote);
  }

  // A literal that is open where the chunk's quote comes.
  lemma ChunkInto(quote: char, c: string, other: char, text: string, types: seq<TokenType>)
    requires IsQuote(quote) && IsQuote(other)
    ensures var q := ReadQuoted([quote] + Behind(quote, c), other, text, types);
      q.types == types && BRACE !in Lexed(q.rest)
  {
    hide Behind, ReadQuoted, Lexed;
    EmptyTokens();
    if quote == other {
      ClosedHere(Behind(quote, c), other, text, types);
      ChunkTakesIn(quote, c);
    } else {
      PlainRead(quote, Behind(quote, c), other, text, types);
      OtherQuote(quote, other, c, text + [quote], types);
      var q := ReadQuoted(Behind(quote, c), other, text + [quote], types);
      if q.complete {
        var k: nat :| k <= |c| && q.rest == Behind(quote, c[k..]);
        ChunkTakesIn(quote, c[k..]);
      }
    }
  }

  // Reading the rest of the sum as a literal takes the text behind it in.
  lemma TextInto(quote: char, c: string, other: char, text: string, types: seq<TokenType>)
    requires IsQuote(quote) && IsQuote(other)
    ensures var q := ReadQuoted(SumBehind(quote, c), other, text, types);
      q.types == types && BRACE !in Lexed(q.rest)
  {
    hide Behind, ReadQuoted, Lexed;
    if c == "" {
      EmptyTokens();
      assert SumBehind(quote, c) == [' '] + REVEALING;
      PlainRead(' ', REVEALING, other, text, types);
      RevealingRead(other, text + [' '], types);
    } else {
      SignRead([quote] + Behind(quote, c), other, text, types);
      ChunkInto(quote, c, other, text + " + ", types);
    }
  }

  lemma {:induction false} EscapedSplit(quote: char, u: string, v: string)
    ensures Escaped(quote, u + v) == Escaped(quote, u) + Escaped(quote, v)
    decreases |u|
  {
    if u == "" {
      assert u + v == v;
    } else {
      assert (u + v)[1..] == u[1..] + v;
      EscapedSplit(quote, u[1..], v);
    }
  }

  lemma {:induction false} EscapedUnbraced(quote: char, u: string)
    requires '}' !in u
    ensures '}' !in Escaped(quote, u)
    decreases |u|
  {
    if u != "" {
      EscapedUnbraced(quote, u[1..]);
    }
  }

  lemma BraceSplit(c: string) returns (u: string, v: string)
    requires '}' in c
    ensures c == u + ['}'] + v && '}' !in u
  {
    var n := IndexOf('}', c);
    assert c[..|c|] == c;
    u, v := c[..n], c[n + 1..];
  }

  lemma EscapedAround(quote: char, u: string, v: string)
    ensures Escaped(quote, u + ['}'] + v) == Escaped(quote, u) + "\\}" + Escaped(quote, v)
  {
    EscapedSplit(quote, u, ['}'] + v);
    assert u + ['}'] + v == u + (['}'] + v) && (['}'] + v)[1..] == v;
    assert Escaped(quote, ['}'] + v) == ['\\', '}'] + Escaped(quote, v);
    hide Escaped;
    assert Escaped(quote, u) + (['\\', '}'] + Escaped(quote, v)) == Escaped(quote, u) + "\\}" + Escaped(quote, v);
  }

  lemma Reassociate(e: string, a: string, q: string, u: string, v: string, end: string)
    ensures ['{'] + (e + (a + (q + (u + "\\}" + v + end)))) == "{" + (e + (a + q + u + "\\")) + "}" + (v + end)
  {
    var x := a + q + u + "\\";
    assert a + (q + (u + "\\}" + v + end)) == x + ("}" + (v + end));
    assert "{" + (e + x) + "}" + (v + end) == "{" + (e + (x + ("}" + (v + end))));
  }

  // Where the chunk has a brace, an open expression ends there.
  lemma BraceInChunk(quote: char, c: string, e: string) returns (u: string, v: string, inner: string)
    requires IsQuote(quote) && '}' in c && '}' !in e
    ensures c == u + ['}'] + v && '}' !in inner
    ensures ['{'] + (e + SumBehind(quote, c)) == "{" + inner + "}" + Behind(quote, v)
  {
    u, v := BraceSplit(c);
    EscapedAround(quote, u, v);
    EscapedUnbraced(quote, u);
    var esc := Escaped(quote, u);
    inner := e + (" + " + [quote] + esc + "\\");
    hide Escaped;
    var end := [quote] + REVEALING;
    Reassociate(e, " + ", [quote], esc, Escaped(quote, v), end);
  }

  lemma ReassociateEnd(a: string, q: string, u: string)
    ensures a + (q + (u + (q + REVEALING))) == a + q + u + q + " x" + "}y"
  {
  }

  // Where it has none, an open expression ends in the revealing text.
  lemma BraceBehind(quote: char, c: string, e: string) returns (inner: string)
    requires IsQuote(quote) && '}' !in c && '}' !in e
    ensures '}' !in inner && ['{'] + (e + SumBehind(quote, c)) == "{" + inner + "}" + "y"
  {
    EscapedUnbraced(quote, c);
    var x := if c == "" then "  x" else " + " + [quote] + Escaped(quote, c) + [quote] + " x";
    hide Escaped;
    inner := e + x;
    assert SumBehind(quote, c) == x + "}y" by {
      if c == "" {
      } else {
        ReassociateEnd(" + ", [quote], Escaped(quote, c));
      }
    }
    assert '}' !in x;
    assert ['{'] + (e + (x + "}y")) == "{" + (e + x) + "}" + "y";
  }

  // What the literal has behind the expression, and what reveals.
  function PartTypes(c: string): seq<TokenType>
  {
    (if c == "" then [] else [PLUS, Str(c)]) + Lexed("x}y")
  }

  lemma PartReveals(c: string)
    ensures BRACE in PartTypes(c)
  {
    hide Lexed, WordOf;
    RevealingTokens();
    assert Lexed("x}y")[1] == BRACE;
  }

  lemma LastDiffers(p: seq<TokenType>, a: seq<TokenType>, v: string, front: seq<TokenType>, c: string)
    requires |v| < |c| && '}' in c && Unbraced(a) && 2 <= |p| < |front|
    ensures Finish(v, p + a + [PLUS]) != front + [Str(c)]
  {
    var left, right := Finish(v, p + a + [PLUS]), front + [Str(c)];
    assert right[|right| - 1] == Str(c);
    if v == "" {
      assert left == p + a;
      if a != [] {
        assert left[|left| - 1] == a[|a| - 1] && a[|a| - 1] in a;
      }
    } else {
      assert left[|left| - 1] == Str(v);
    }
  }

  // The chunk's tokens differ from those of the chunk behind its first brace.
  lemma ChunkDiffers(text: string, types: seq<TokenType>, e: string, inner: string, c: string, v: string)
    requires |v| < |c| && '}' in c && Unbraced(Alone(inner))
    ensures Finish(v, Opened(text, types, inner)) + Lexed("x}y") != Finish("", Opened(text, types, e)) + PartTypes(c)
  {
    hide Lexed, Alone;
    var p, a, a' := types + [Str(text), PLUS], Alone(e), Alone(inner);
    assert Finish("", p + a + [PLUS]) == p + a;
    assert Opened(text, types, e) == p + a + [PLUS] && Opened(text, types, inner) == p + a' + [PLUS];
    var left, right := Finish(v, p + a' + [PLUS]), p + a + [PLUS, Str(c)];
    assert p + a + PartTypes(c) == right + Lexed("x}y");
    LastDiffers(p, a', v, p + a + [PLUS], c);
    if left + Lexed("x}y") == right + Lexed("x}y") {
      SameFront(left, right, Lexed("x}y"));
    }
  }

  lemma NotSame(a: seq<TokenType>, b: seq<TokenType>, x: seq<TokenType>, y: seq<TokenType>)
    requires BRACE !in a && BRACE !in b && BRACE in y
    ensures a + b != x + y
  {
    assert BRACE in x + y && BRACE !in a + b;
  }

  lemma NoBraceOpened(text: string, types: seq<TokenType>, e: string)
    requires Unbraced(types) && Unbraced(Alone(e))
    ensures BRACE !in Opened(text, types, e)
  {
    hide Alone;
  }

  lemma ChunkRead(quote: char, v: string, types: seq<TokenType>)
    requires IsQuote(quote)
    ensures ReadQuoted(Behind(quote, v), quote, "", types) == Quoted(v, types, REVEALING, true)
  {
    hide ReadQuoted, Escaped;
    EscapedRead(quote, v, [quote] + REVEALING, "", types);
    assert "" + v == v;
    ClosedHere(REVEALING, quote, v, types);
  }

  lemma NoBraceFinish(text: string, types: seq<TokenType>)
    requires BRACE !in types
    ensures BRACE !in Finish(text, types)
  {
  }

  lemma NothingRead(quote: char, text: string, types: seq<TokenType>)
    ensures ReadQuoted("", quote, text, types) == Quoted(text, types, "", false)
  {
    NothingHead(quote);
  }

  lemma LastRead(quote: char, types: seq<TokenType>)
    requires IsQuote(quote)
    ensures ReadQuoted("y", quote, "", types) == Quoted("y", types, "", false)
  {
    hide ReadQuoted;
    assert ['y'] + "" == "y" && "" + ['y'] == "y";
    PlainRead('y', "", quote, "", types);
    NothingRead(quote, "y", types);
  }

  // An open expression of a literal that is an expression's last token takes something in.
  lemma BracesInto(quote: char, c: string, other: char, text: string, types: seq<TokenType>, e: string)
    requires IsQuote(quote) && IsQuote(other) && Unbraced(types) && '}' !in e
    ensures
      var q := ReadQuoted(['{'] + (e + SumBehind(quote, c)), other, text, types);
      Finish(q.text, q.types) + Lexed(q.rest) != Finish("", Opened(text, types, e)) + PartTypes(c)
  {
    hide SumBehind, Behind, ReadQuoted, Lexed, Alone, Opened, Finish, PartTypes, Unbraced, Escaped;
    PartReveals(c);
    EmptyTokens();
    if '}' in c {
      var u, v, inner := BraceInChunk(quote, c, e);
      BracedStep(inner, Behind(quote, v), other, text, types);
      AloneUnbraced(inner);
      var grown := Opened(text, types, inner);
      NoBraceOpened(text, types, inner);
      if other == quote {
        ChunkRead(quote, v, grown);
        BlankFirst(REVEALING);
        ChunkDiffers(text, types, e, inner, c, v);
      } else {
        OtherQuote(quote, other, v, "", grown);
        var q := ReadQuoted(Behind(quote, v), other, "", grown);
        if q.complete {
          var k: nat :| k <= |v| && q.rest == Behind(quote, v[k..]);
          ChunkTakesIn(quote, v[k..]);
        }
        NoBraceFinish(q.text, grown);
        NotSame(Finish(q.text, grown), Lexed(q.rest), Finish("", Opened(text, types, e)), PartTypes(c));
      }
    } else {
      var inner := BraceBehind(quote, c, e);
      BracedStep(inner, "y", other, text, types);
      AloneUnbraced(inner);
      NoBraceOpened(text, types, inner);
      LastRead(other, Opened(text, types, inner));
      NoBraceFinish("y", Opened(text, types, inner));
      NotSame(Finish("y", Opened(text, types, inner)), Lexed(""), Finish("", Opened(text, types, e)), PartTypes(c));
    }
  }

  // ---------------------------------------------------------------- exactly the last expression

  lemma SumBehindSpaced(quote: char, c: string)
    ensures Spaced(SumBehind(quote, c))
  {
    hide Behind;
  }

  lemma {:induction false} OpenRest(s: string, quote: char, text: string, types: seq<TokenType>)
    requires !ReadQuoted(s, quote, text, types).complete
    ensures ReadQuoted(s, quote, text, types).rest == ""
    decreases |s|
  {
    hide HeadOf, Opened, Unescape;
    match HeadOf(s, quote)
    case Plain(c, more) => OpenRest(more, quote, text + [c], types);
    case Escape(c, more) => OpenRest(more, quote, text + [Unescape(c)], types);
    case Braced(e, more) => OpenRest(more, quote, "", Opened(text, types, e));
    case _ =>
  }

  // The tokens of a text that is an open literal.
  lemma LiteralAlone(t: string)
    requires t != "" && IsQuote(t[0]) && !ReadOne(t).complete && SkipBlanks(t) == t
    ensures var q := ReadQuoted(t[1..], t[0], "", []); Alone(t) == Finish(q.text, q.types)
  {
    hide ReadQuoted, Lexed, Alone, Finish, SkipBlanks;
    assert t == [t[0]] + t[1..];
    QuoteFirst(t[0], t[1..]);
    EmptyTokens();
    EndsOnce(t);
    var q := ReadQuoted(t[1..], t[0], "", []);
    OpenRest(t[1..], t[0], "", []);
    SameFront(Alone(t), Finish(q.text, q.types), [Eof]);
  }

  lemma UnbracedNone(types: seq<TokenType>)
    requires Unbraced(types)
    ensures BRACE !in types
  {
  }

  // An open literal at the end of an expression.
  lemma LiteralBreaks(quote: char, c: string, t: string)
    requires IsQuote(quote) && t != "" && IsQuote(t[0]) && !ReadOne(t).complete && '}' !in t && SkipBlanks(t) == t
    ensures Lexed(t + SumBehind(quote, c)) != Alone(t) + PartTypes(c)
  {
    hide SumBehind, ReadQuoted, Lexed, Alone, Opened, Finish, PartTypes, Unbraced, IsQuote, SkipBlanks;
    var w := SumBehind(quote, c);
    SumBehindSpaced(quote, c);
    PartReveals(c);
    EofUnbraced();
    var end := OpenReads(t[1..], t[0], "", [], w);
    assert t + w == [t[0]] + (t[1..] + w) && t == [t[0]] + t[1..];
    QuoteFirst(t[0], t[1..] + w);
    LiteralAlone(t);
    var q := ReadQuoted(t[1..] + w, t[0], "", []);
    match end
    case AfterText(text, types) =>
      TextInto(quote, c, t[0], text, types);
      UnbracedNone(types);
      NoBraceFinish(q.text, q.types);
      NotSame(Finish(q.text, q.types), Lexed(q.rest), Alone(t), PartTypes(c));
    case InBraces(text, types, e) =>
      BracesInto(quote, c, t[0], text, types, e);
  }

  lemma LexedComment(s: string)
    requires StartsComment(s)
    ensures Lexed(s) == Lexed(s[1..][IndexOf('\n', s[1..])..])
  {
    assert !IsBlank('/');
    hide IsBlank, ReadOne;
    LexedStep(s);
    LexedStep(s[1..][IndexOf('\n', s[1..])..]);
  }

  lemma {:induction false} IndexBehind(e: string, w: string)
    requires '\n' !in e
    ensures IndexOf('\n', e + w) == |e| + IndexOf('\n', w)
    decreases |e|
  {
    if e == "" {
      assert e + w == w;
    } else {
      assert (e + w)[1..] == e[1..] + w;
      IndexBehind(e[1..], w);
    }
  }

  // What follows the first line break behind the expression.
  lemma SumLine(quote: char, c: string)
    requires IsQuote(quote)
    ensures var w := SumBehind(quote, c); BRACE !in Lexed(w[IndexOf('\n', w)..])
  {
    hide Behind, Lexed;
    var w := SumBehind(quote, c);
    EmptyTokens();
    if c == "" {
      NotInEither('\n', " ", REVEALING);
      IndexAbsent('\n', w);
    } else {
      var b := Behind(quote, c);
      assert w == (" + " + [quote]) + b;
      IndexBehind(" + " + [quote], b);
      LineRun(quote, c);
      assert w[IndexOf('\n', w)..] == b[IndexOf('\n', b)..];
      if IndexOf('\n', b) < |b| {
        var k: nat :| k <= |c| && b[IndexOf('\n', b)..] == Behind(quote, c[k..]);
        ChunkTakesIn(quote, c[k..]);
      }
    }
  }

  // An open comment at the end of an expression.
  lemma {:induction false} CommentBreaks(quote: char, c: string, e: string)
    requires IsQuote(quote) && CommentOpen(e)
    ensures BRACE !in Lexed(e + SumBehind(quote, c))
    decreases |e|
  {
    hide SumBehind, IsBlank, ReadOne, Lexed;
    var w := SumBehind(quote, c);
    var s := e + w;
    assert s[1..] == e[1..] + w;
    if IsBlank(e[0]) {
      LexedBlank(s);
      CommentBreaks(quote, c, e[1..]);
    } else {
      var n := IndexOf('\n', e[1..]);
      LexedComment(s);
      if n == |e| - 1 {
        assert e[1..][..n] == e[1..];
        IndexBehind(e[1..], w);
        SumLine(quote, c);
        assert s[1..][IndexOf('\n', s[1..])..] == w[IndexOf('\n', w)..];
      } else {
        IndexLocal('\n', e[1..], w);
        assert s[1..][n..] == e[1..][n..] + w;
        CommentBreaks(quote, c, e[1..][n..]);
      }
    }
  }

  lemma PlainOne(t: string)
    requires t != "" && !IsQuote(t[0])
    ensures ReadOne(t) == ReadPlain(t)
  {
    hide ReadPlain;
  }

  lemma OneUnbraced(t: string)
    requires t != "" && '}' !in t
    ensures '}' !in ReadOne(t).rest
  {
    hide ReadPlain, ReadQuoted, Unbraced;
    if IsQuote(t[0]) {
      EofUnbraced();
      QuotedUnbraced(t[1..], t[0], "", []);
    } else {
      PlainUnbraced(t);
    }
  }

  lemma SkipFurther(t: string, w: string)
    requires t != "" && SkipBlanks(t) == t && Spaced(w)
    ensures SkipBlanks(t + w) == t + w
  {
    hide IsSpace;
    assert |t| == 1 ==> (t + w)[1] == ' ';
  }

  lemma SkippedTo(e: string, w: string)
    requires !CommentOpen(e) && SkipBlanks(e) != "" && Spaced(w)
    ensures Lexed(e + w) == Lexed(SkipBlanks(e) + w) && Alone(e) == Alone(SkipBlanks(e))
  {
    hide SkipBlanks, CommentOpen, ReadOne;
    var t := SkipBlanks(e);
    BlanksLocal(e, w);
    SkipTwice(e);
    SkipFurther(t, w);
    LexedStep(e + w);
    LexedStep(t + w);
    LexedStep(e);
    LexedStep(t);
  }

  // An expression that is not closed breaks its sum.
  lemma {:induction false} PartBreaks(quote: char, c: string, e: string)
    requires IsQuote(quote) && '}' !in e && !Closed(e)
    ensures Lexed(e + SumBehind(quote, c)) != Alone(e) + PartTypes(c)
    decreases |e|
  {
    hide SumBehind, SkipBlanks, CommentOpen, ReadOne, Lexed, Alone, PartTypes;
    var w := SumBehind(quote, c);
    SumBehindSpaced(quote, c);
    PartReveals(c);
    if CommentOpen(e) {
      CommentBreaks(quote, c, e);
      NotSame([], Lexed(e + w), Alone(e), PartTypes(c));
      assert [] + Lexed(e + w) == Lexed(e + w);
    } else {
      BlanksLocal(e, w);
      SkipTwice(e);
      SkipUnbraced(e);
      var t := SkipBlanks(e);
      if ReadOne(t).complete {
        OneLocalRest(t, w);
        OneHasNoEof(t);
        OneUnbraced(t);
        AloneStep(e);
        LexedStep(e + w);
        PartBreaks(quote, c, ReadOne(t).rest);
        SameBehind(ReadOne(t).types, Lexed(ReadOne(t).rest + w), Alone(ReadOne(t).rest) + PartTypes(c));
        assert ReadOne(t).types + (Alone(ReadOne(t).rest) + PartTypes(c)) == Alone(e) + PartTypes(c);
      } else {
        SkippedTo(e, w);
        if IsQuote(t[0]) {
          LiteralBreaks(quote, c, t);
        } else {
          SkipFurther(t, w);
          PlainOne(t);
          IllegalFirst(t, w);
          NotSame([], [Eof], Alone(e), PartTypes(c));
        }
      }
    }
  }

  // ---------------------------------------------------------------- literals whose last expression is open

  lemma GroupLeft(a: string, b: string, c: string, d: string, e: string, x: string)
    ensures a + b + c + d + e + x == a + (b + (c + (d + (e + x))))
  {
    var y := e + x;
    assert a + b + c + d + e + x == a + b + c + d + y;
    var z := d + y;
    assert a + b + c + d + y == a + b + c + z;
    assert a + b + c + z == a + (b + (c + z));
  }

  lemma SumUnfold(quote: char, parts: seq<Part>)
    requires parts != [] && !Dropped(parts)
    ensures SumText(quote, parts)
      == " + " + parts[0].expr + " + " + PlainText(quote, parts[0].chunk) + SumText(quote, parts[1..])
  {
    hide PlainText;
  }

  lemma SumShape(quote: char, parts: seq<Part>, r: string)
    requires parts != [] && !Dropped(parts)
    ensures SumText(quote, parts) + r
      == " + " + (parts[0].expr + (" + " + (PlainText(quote, parts[0].chunk) + (SumText(quote, parts[1..]) + r))))
  {
    hide PlainText, SumText;
    SumUnfold(quote, parts);
    GroupLeft(" + ", parts[0].expr, " + ", PlainText(quote, parts[0].chunk), SumText(quote, parts[1..]), r);
  }

  lemma SumStep(quote: char, parts: seq<Part>, r: string)
    requires IsQuote(quote) && parts != [] && !Dropped(parts) && Closed(parts[0].expr)
    ensures Lexed(SumText(quote, parts) + r)
      == [PLUS] + Alone(parts[0].expr) + [PLUS, Str(parts[0].chunk)] + Lexed(SumText(quote, parts[1..]) + r)
  {
    hide Lexed, Alone, PlainText, Closed;
    var e, c := parts[0].expr, parts[0].chunk;
    var more := SumText(quote, parts[1..]) + r;
    var next := " + " + (PlainText(quote, c) + more);
    SumShape(quote, parts, r);
    hide SumText;
    assert next[1..] == "+ " + (PlainText(quote, c) + more);
    PlusFirst(e + next);
    ClosedLocal(e, next);
    PlusFirst(PlainText(quote, c) + more);
    PlainTokens(quote, c, more);
  }

  lemma LastBreaks(quote: char, part: Part)
    requires IsQuote(quote) && '}' !in part.expr && !Closed(part.expr)
    ensures Lexed(SumText(quote, [part]) + REVEALING) != SumTypes([part]) + Lexed("x}y")
  {
    hide Lexed, Alone, Closed, Escaped;
    var e, c := part.expr, part.chunk;
    var w := SumBehind(quote, c);
    assert [part][1..] == [];
    assert SumText(quote, [part]) + REVEALING == " + " + (e + w);
    PlusFirst(e + w);
    PartBreaks(quote, c, e);
    SameBehind([PLUS], Lexed(e + w), Alone(e) + PartTypes(c));
    assert [PLUS] + (Alone(e) + PartTypes(c)) == SumTypes([part]) + Lexed("x}y");
  }

  lemma {:induction false} SumBreaks(quote: char, parts: seq<Part>)
    requires IsQuote(quote) && Braceless(parts) && parts != []
    requires AllClosed(parts[..|parts| - 1]) && !Closed(parts[|parts| - 1].expr)
    ensures Lexed(SumText(quote, parts) + REVEALING) != SumTypes(parts) + Lexed("x}y")
    decreases |parts|
  {
    hide Lexed, Alone, Closed, SumText;
    if |parts| == 1 {
      assert parts == [parts[0]];
      LastBreaks(quote, parts[0]);
    } else {
      assert parts[..|parts| - 1][0] == parts[0];
      assert parts[1..][..|parts| - 2] == parts[..|parts| - 1][1..];
      SumStep(quote, parts, REVEALING);
      SumBreaks(quote, parts[1..]);
      var front := [PLUS] + Alone(parts[0].expr) + [PLUS, Str(parts[0].chunk)];
      SameBehind(front, Lexed(SumText(quote, parts[1..]) + REVEALING), SumTypes(parts[1..]) + Lexed("x}y"));
      assert front + (SumTypes(parts[1..]) + Lexed("x}y")) == SumTypes(parts) + Lexed("x}y");
    }
  }

  lemma ClosedSum(quote: char, first: string, parts: seq<Part>, tail: string)
    requires IsQuote(quote) && Braceless(parts) && AllClosed(parts)
    ensures LexesAsSum(quote, first, parts, tail)
  {
    hide Lexed, LiteralText, PlainText, SumText, AllClosed;
    LiteralIsSum(quote, first, parts, tail);
  }

  /** A literal whose expressions before the last are closed, as where there is one expression, lexes as
      its sum, whatever follows, exactly when the last is closed too. */
  lemma LastExactly(quote: char, first: string, parts: seq<Part>)
    requires IsQuote(quote) && Braceless(parts) && parts != [] && AllClosed(parts[..|parts| - 1])
    ensures (forall r :: Spaced(r) ==> LexesAsSum(quote, first, parts, r)) <==> Closed(parts[|parts| - 1].expr)
  {
    hide LexesAsSum, SumText, SumTypes, Closed, Lexed, Alone;
    if Closed(parts[|parts| - 1].expr) {
      forall i | 0 <= i < |parts| ensures Closed(parts[i].expr) {
        assert i < |parts| - 1 ==> parts[..|parts| - 1][i] == parts[i];
      }
      forall r | Spaced(r) ensures LexesAsSum(quote, first, parts, r) {
        ClosedSum(quote, first, parts, r);
      }
    } else {
      assert Spaced(REVEALING) && REVEALING[1..] == "x}y";
      SumBreaks(quote, parts);
      BlankFirst(REVEALING);
      SumAlone(quote, first, parts, REVEALING);
    }
  }

  lemma {:induction false} FirstOpen(parts: seq<Part>) returns (n: nat)
    requires !AllClosed(parts)
    ensures n < |parts| && AllClosed(parts[..n]) && !Closed(parts[n].expr)
    decreases |parts|
  {
    hide Closed;
    var init := parts[..|parts| - 1];
    if AllClosed(init) {
      n := |parts| - 1;
    } else {
      n := FirstOpen(init);
      assert init[..n] == parts[..n];
    }
  }

  /** A literal and everything that it begins with, up to any of its expressions, lex as their sums,
      whatever follows, exactly when every expression is closed. */
  lemma PrefixesExactly(quote: char, first: string, parts: seq<Part>)
    requires IsQuote(quote) && Braceless(parts)
    ensures AllClosed(parts) <==>
      forall k, r :: 0 <= k <= |parts| && Spaced(r) ==> LexesAsSum(quote, first, parts[..k], r)
  {
    hide LexesAsSum, Closed, Spaced;
    if AllClosed(parts) {
      forall k, r | 0 <= k <= |parts| && Spaced(r) ensures LexesAsSum(quote, first, parts[..k], r) {
        ClosedSum(quote, first, parts[..k], r);
      }
    } else {
      var n := FirstOpen(parts);
      assert parts[..n + 1][..n] == parts[..n];
      LastExactly(quote, first, parts[..n + 1]);
    }
  }

  // ---------------------------------------------------------------- two literals

  lemma CommentText()
    ensures !Closed("//") && Alone("//") == [] && CommentOpen("//")
  {
    assert !IsBlank('/');
    hide IsBlank, ReadOne;
    assert "//"[1..] == "/" && "/"[1..] == "";
    IndexAbsent('\n', "/");
    assert SkipBlanks("//") == "";
    LexedStep("//");
  }

  lemma CommentOut()
    ensures Lexed("// x") == [Eof]
  {
    hide Lexed;
    var s := "// x";
    LexedComment(s);
    IndexAbsent('\n', s[1..]);
    assert s[1..][|s[1..]|..] == "";
    EmptyTokens();
  }

  /** "s{//}" in front of x lexes to three tokens, and its sum "s" + //  x to two. */
  lemma CommentInLiteral()
    ensures Braceless([Part("//", "")])
    ensures Lexed(LiteralText('"', "s", [Part("//", "")]) + "x") == [Str("s"), PLUS, WordOf("x"), Eof]
    ensures Lexed(PlainText('"', "s") + SumText('"', [Part("//", "")]) + "x") == [Str("s"), PLUS, Eof]
  {
    hide Lexed, LiteralText, PlainText, WordOf, Alone;
    var part := Part("//", "");
    CommentText();
    LiteralTokens('"', "s", [part], "x");
    NameAlone();
    assert [Str("s")] + SumTypes([part]) + Lexed("x") == [Str("s"), PLUS, WordOf("x"), Eof];
    assert SumText('"', [part]) == " + // ";
    assert PlainText('"', "s") + " + // " + "x" == PlainText('"', "s") + (" + " + "// x");
    PlainTokens('"', "s", " + " + "// x");
    assert [Str("s")] + ([PLUS] + [Eof]) == [Str("s"), PLUS, Eof];
    PlusFirst("// x");
    CommentOut();
  }

  lemma NameAlone()
    ensures Lexed("x") == [WordOf("x"), Eof]
  {
    hide WordOf, IsNameStart, IsNameChar, Lexed;
    SomeCharacters();
    EmptyTokens();
    assert ['x'] + "" == "x";
    NameFirst('x', "");
  }

  // The chunk and the expression that make up for an open comment before them.
  const BREAK := "\n"

  function Chunk(): string { "\"" + (" + " + (BREAK + ("+ " + "'"))) }

  function Rest(): string { BREAK + ("+ " + ("\\'" + ("'" + "+ +"))) }

  lemma RestTokens()
    ensures Alone(Rest()) == [PLUS] && '}' !in Rest()
  {
    hide Lexed;
    var s := "\\'" + ("'" + "+ +");
    assert Rest()[1..] == "+ " + s;
    LexedBlank(Rest());
    PlusFirst(s);
    BackslashStops(s);
    EndsOnce(Rest());
    SameFront(Alone(Rest()), [PLUS], [Eof]);
  }

  lemma EscapedOne(quote: char, s: string)
    ensures Escaped(quote, [quote] + s) == ['\\', quote] + Escaped(quote, s)
  {
    assert ([quote] + s)[1..] == s;
  }

  lemma {:induction false} EscapedSame(quote: char, s: string)
    requires forall i :: 0 <= i < |s| ==> !NeedsEscape(s[i], quote)
    ensures Escaped(quote, s) == s
    decreases |s|
  {
    if s != "" {
      EscapedSame(quote, s[1..]);
    }
  }

  // A text without quotes between two different ones.
  lemma EscapedDouble(b: string)
    requires forall i :: 0 <= i < |b| ==> !NeedsEscape(b[i], '"')
    ensures Escaped('"', "\"" + (b + "'")) == "\\\"" + (b + "'")
  {
    EscapedOne('"', b + "'");
    EscapedSame('"', b + "'");
  }

  lemma EscapedNothing()
    ensures Escaped('\'', "'") == "\\'" && !NeedsEscape('"', '\'')
  {
    EscapedOne('\'', "");
    assert ['\''] + "" == "'";
  }

  lemma EscapedSingle(b: string)
    requires forall i :: 0 <= i < |b| ==> !NeedsEscape(b[i], '\'')
    ensures Escaped('\'', "\"" + (b + "'")) == "\"" + (b + "\\'")
  {
    EscapedNothing();
    hide Escaped, NeedsEscape;
    var a := "\"" + b;
    assert a + "'" == "\"" + (b + "'") && a + "\\'" == "\"" + (b + "\\'");
    EscapedSplit('\'', a, "'");
    EscapedSame('\'', a);
  }

  lemma ChunkEscaped()
    ensures Escaped('"', Chunk()) == "\\\"" + (" + " + (BREAK + ("+ " + "'")))
    ensures Escaped('\'', Chunk()) == "\"" + (" + " + (BREAK + ("+ " + "\\'")))
  {
    var b := " + " + (BREAK + "+ ");
    EscapedDouble(b);
    EscapedSingle(b);
    hide Escaped;
    assert Chunk() == "\"" + (b + "'");
    assert b + "'" == " + " + (BREAK + ("+ " + "'")) && b + "\\'" == " + " + (BREAK + ("+ " + "\\'"));
  }

  // The comment in front of the line break, and the literal behind it.
  function Front(): string { "/" + (" + " + ("\"" + ("\\\"" + " + "))) }

  function Line(p: string): string
  {
    "+ " + (PlainText('\'', Chunk()) + ("+ " + ("+ " + ("+ " + p))))
  }

  lemma GroupFive(a: string, b: string, c: string, d: string, x: string)
    ensures (a + (b + (c + d))) + x == a + (b + (c + (d + x)))
  {
  }

  // The second summand behind the chunk's quote.
  lemma RestShape(p: string)
    ensures " + " + Rest() + " + " + p == " + " + (BREAK + ("+ " + ("\\'" + ("'" + ("+ " + ("+ " + ("+ " + p)))))))
  {
    var s := "'" + "+ +";
    assert "+ +" + (" + " + p) == "+ " + ("+ " + ("+ " + p));
    assert s + (" + " + p) == "'" + ("+ " + ("+ " + ("+ " + p)));
    GroupFive(BREAK, "+ ", "\\'", s, " + " + p);
    assert " + " + Rest() + " + " + p == " + " + (Rest() + (" + " + p));
  }

  lemma LineShape(p: string)
    ensures Line(p) ==
      "+ " + ("'" + ("\"" + (" + " + (BREAK + ("+ " + ("\\'" + ("'" + ("+ " + ("+ " + ("+ " + p))))))))))
  {
    ChunkEscaped();
    hide Escaped;
    var x := "+ " + ("+ " + ("+ " + p));
    var chunk := "\"" + (" + " + (BREAK + ("+ " + "\\'")));
    assert PlainText('\'', Chunk()) + x == "'" + (chunk + ("'" + x));
    GroupFive("\"", " + ", BREAK, "+ " + "\\'", "'" + x);
    assert ("+ " + "\\'") + ("'" + x) == "+ " + ("\\'" + ("'" + x));
  }

  lemma ChunkShape(x: string)
    ensures "//" + " + " + (PlainText('"', Chunk()) + x) == "/" + (Front() + (BREAK + ("+ " + ("'" + ("\"" + x)))))
  {
    ChunkEscaped();
    hide Escaped;
    var y := BREAK + ("+ " + ("'" + ("\"" + x)));
    var chunk := "\\\"" + (" + " + (BREAK + ("+ " + "'")));
    assert PlainText('"', Chunk()) + x == "\"" + (chunk + ("\"" + x));
    GroupFive("\\\"", " + ", BREAK, "+ " + "'", "\"" + x);
    assert ("+ " + "'") + ("\"" + x) == "+ " + ("'" + ("\"" + x));
    GroupFive("/", " + ", "\"", "\\\"" + " + ", y);
    assert ("\\\"" + " + ") + y == "\\\"" + (" + " + y);
    assert "//" + " + " + ("\"" + ("\\\"" + (" + " + y))) == "/" + ("/" + (" + " + ("\"" + ("\\\"" + (" + " + y)))));
  }

  lemma OpenYetSumShape(c: string, tail: string)
    requires c != ""
    ensures SumText('"', [Part("//", Chunk()), Part(Rest(), c)]) + tail
      == " + " + ("/" + (Front() + (BREAK + Line(PlainText('"', c) + tail))))
  {
    var parts, q := [Part("//", Chunk()), Part(Rest(), c)], PlainText('"', c);
    hide PlainText, Chunk, Rest, Front, Line;
    assert parts[1..] == [Part(Rest(), c)] && parts[1..][1..] == [];
    var p := q + tail;
    var chunk, y := PlainText('"', Chunk()), " + " + Rest() + " + " + p;
    assert SumText('"', parts[1..]) + tail == y;
    assert SumText('"', parts) + tail == " + " + ("//" + " + " + (chunk + (SumText('"', parts[1..]) + tail)));
    hide SumText;
    RestShape(p);
    ChunkShape(y);
    LineShape(p);
  }

  lemma CommentSkipped(front: string, line: string)
    requires front != "" && front[0] == '/' && '\n' !in front
    ensures Lexed("/" + (front + (BREAK + line))) == Lexed(line)
  {
    hide Lexed;
    var s := "/" + (front + (BREAK + line));
    assert s[1..] == front + (BREAK + line);
    IndexBehind(front, BREAK + line);
    assert s[1..][|front|..] == BREAK + line;
    LexedComment(s);
    LexedBlank(BREAK + line);
    assert (BREAK + line)[1..] == line;
  }

  lemma FrontIs()
    ensures Front() != "" && Front()[0] == '/' && '\n' !in Front()
  {
  }

  // The comment runs to the chunk's line break; then the chunk stands between the other quotes.
  lemma OpenYetSumText(c: string, tail: string)
    requires c != ""
    ensures Lexed(SumText('"', [Part("//", Chunk()), Part(Rest(), c)]) + tail)
      == [PLUS, PLUS, Str(Chunk()), PLUS, PLUS, PLUS, Str(c)] + Lexed(tail)
  {
    FrontIs();
    hide Lexed, Escaped, PlainText, SumText, Chunk, Rest, Front, Line;
    OpenYetSumShape(c, tail);
    var p := PlainText('"', c) + tail;
    PlusFirst("/" + (Front() + (BREAK + Line(p))));
    CommentSkipped(Front(), Line(p));
    LineTokens(p);
    PlainTokens('"', c, tail);
    assert [PLUS] + ([PLUS, Str(Chunk()), PLUS, PLUS, PLUS] + ([Str(c)] + Lexed(tail)))
      == [PLUS, PLUS, Str(Chunk()), PLUS, PLUS, PLUS, Str(c)] + Lexed(tail);
  }

  lemma LineTokens(p: string)
    ensures Lexed(Line(p)) == [PLUS, Str(Chunk()), PLUS, PLUS, PLUS] + Lexed(p)
  {
    hide Lexed, Escaped, PlainText, Chunk;
    var after := "+ " + ("+ " + ("+ " + p));
    PlusFirst(PlainText('\'', Chunk()) + after);
    PlainTokens('\'', Chunk(), after);
    PlusFirst("+ " + ("+ " + p));
    PlusFirst("+ " + p);
    PlusFirst(p);
  }

  /** An open expression need not show: what the comment takes from the first chunk is made up for by
      its second half and the next expression, so that this literal lexes as its sum whatever follows. */
  lemma OpenYetSum(first: string, c: string, tail: string)
    requires c != ""
    ensures var parts := [Part("//", Chunk()), Part(Rest(), c)];
      Braceless(parts) && !AllClosed(parts) && LexesAsSum('"', first, parts, tail)
  {
    var parts := [Part("//", Chunk()), Part(Rest(), c)];
    CommentText();
    RestTokens();
    OpenYetSumText(c, tail);
    OpenYetSumTypes(c);
    hide Lexed, Alone, Closed, PlainText, SumText, SumTypes, LexesAsSum;
    assert !Closed(parts[0].expr);
    SumAlone('"', first, parts, tail);
  }

  lemma OpenYetSumTypes(c: string)
    requires c != ""
    ensures SumTypes([Part("//", Chunk()), Part(Rest(), c)]) == [PLUS, PLUS, Str(Chunk()), PLUS, PLUS, PLUS, Str(c)]
  {
    CommentText();
    RestTokens();
    hide Alone;
    var parts := [Part("//", Chunk()), Part(Rest(), c)];
    assert parts[1..] == [Part(Rest(), c)] && parts[1..][1..] == [];
    assert SumTypes(parts[1..]) == [PLUS, PLUS, PLUS, Str(c)];
  }
}
