/** What the router's reading of paths and methods means (crates/eronom-vm/src/router.rs:46-61, 98):
    which segments a path has, which methods are the same, and what a request binds. */
module RoutePaths {
  import opened Options
  import opened R = Router

  // ---------------------------------------------------------------- trimming

  predicate AllWhite(s: string)
  {
    forall i :: 0 <= i < |s| ==> IsWhite(s[i])
  }

  predicate EndsBare(s: string)
  {
    s != "" ==> !IsWhite(s[|s| - 1])
  }

  predicate StartsBare(s: string)
  {
    s != "" ==> !IsWhite(s[0])
  }

  lemma {:induction false} TrimStartOver(w: string, s: string)
    requires AllWhite(w)
    ensures TrimStart(w + s) == TrimStart(s)
    decreases |w|
  {
    if w == "" {
      assert w + s == s;
    } else {
      assert (w + s)[0] == w[0] && (w + s)[1..] == w[1..] + s;
      TrimStartOver(w[1..], s);
    }
  }

  lemma {:induction false} TrimEndOver(s: string, w: string)
    requires AllWhite(w)
    ensures TrimEnd(s + w) == TrimEnd(s)
    decreases |w|
  {
    if w == "" {
      assert s + w == s;
    } else {
      var t := s + w;
      assert t[|t| - 1] == w[|w| - 1] && t[..|t| - 1] == s + w[..|w| - 1];
      TrimEndOver(s, w[..|w| - 1]);
    }
  }

  // What stands in front of something bare is trimmed alone, and so is what stands behind it.
  lemma {:induction false} TrimStartBefore(a: string, s: string)
    requires s != "" && StartsBare(s)
    ensures TrimStart(a + s) == TrimStart(a) + s
    decreases |a|
  {
    if a == "" {
      assert a + s == s;
    } else {
      assert (a + s)[0] == a[0] && (a + s)[1..] == a[1..] + s;
      if IsWhite(a[0]) {
        TrimStartBefore(a[1..], s);
      }
    }
  }

  lemma {:induction false} TrimEndBehind(s: string, b: string)
    requires s != "" && EndsBare(s)
    ensures TrimEnd(s + b) == s + TrimEnd(b)
    decreases |b|
  {
    var t := s + b;
    if b == "" {
      assert t == s && s + "" == s;
    } else {
      assert t[|t| - 1] == b[|b| - 1];
      if IsWhite(b[|b| - 1]) {
        assert t[..|t| - 1] == s + b[..|b| - 1];
        TrimEndBehind(s, b[..|b| - 1]);
      }
    }
  }

  lemma TrimAround(a: string, x: string, b: string)
    requires x != "" && StartsBare(x) && EndsBare(x)
    ensures Trim(a + x + b) == TrimStart(a) + x + TrimEnd(b)
  {
    assert a + x + b == a + (x + b);
    TrimStartBefore(a, x + b);
    var front := TrimStart(a) + x;
    assert TrimStart(a) + (x + b) == front + b;
    TrimEndBehind(front, b);
  }

  lemma {:induction false} TrimStartWhite(s: string)
    ensures AllWhite(s) ==> TrimStart(s) == ""
    ensures StartsBare(s) ==> TrimStart(s) == s
    ensures StartsBare(TrimStart(s))
    decreases |s|
  {
    if s != "" && IsWhite(s[0]) {
      TrimStartWhite(s[1..]);
    }
  }

  lemma {:induction false} TrimEndBare(s: string)
    ensures EndsBare(s) ==> TrimEnd(s) == s
    ensures EndsBare(TrimEnd(s)) && TrimEnd(s) <= s
    decreases |s|
  {
    if s != "" && IsWhite(s[|s| - 1]) {
      TrimEndBare(s[..|s| - 1]);
    }
  }

  lemma AllWhiteRest(s: string)
    requires s != ""
    ensures AllWhite(s) <==> IsWhite(s[0]) && AllWhite(s[1..])
  {
    if IsWhite(s[0]) && AllWhite(s[1..]) {
      forall i | 0 <= i < |s| ensures IsWhite(s[i]) {
        assert i > 0 ==> s[i] == s[1..][i - 1];
      }
    }
  }

  lemma {:induction false} TrimStartPrefix(s: string, w: string)
    requires !AllWhite(s)
    ensures TrimStart(s + w) == TrimStart(s) + w
    decreases |s|
  {
    assert (s + w)[0] == s[0] && (s + w)[1..] == s[1..] + w;
    if IsWhite(s[0]) {
      AllWhiteRest(s);
      TrimStartPrefix(s[1..], w);
    }
  }

  // White space around a text does not matter.
  lemma TrimSurrounded(w: string, s: string, w': string)
    requires AllWhite(w) && AllWhite(w')
    ensures Trim(w + s + w') == Trim(s)
  {
    assert w + s + w' == w + (s + w');
    TrimStartOver(w, s + w');
    hide TrimEnd;
    if AllWhite(s) {
      TrimStartWhite(s);
      TrimStartWhite(s + w');
    } else {
      TrimStartPrefix(s, w');
      TrimEndOver(TrimStart(s), w');
    }
  }

  // ---------------------------------------------------------------- which segments a path has

  predicate SegmentText(g: string)
  {
    g != "" && '/' !in g && '?' !in g
  }

  predicate SegmentTexts(segs: seq<string>)
  {
    forall i :: 0 <= i < |segs| ==> SegmentText(segs[i])
  }

  lemma {:induction false} SegmentsOver(g: string, rest: string, cur: string)
    requires '/' !in g
    ensures Segments(g + rest, cur) == Segments(rest, cur + g)
    decreases |g|
  {
    if g == "" {
      assert g + rest == rest && cur + g == cur;
    } else {
      assert (g + rest)[0] == g[0] && (g + rest)[1..] == g[1..] + rest;
      SegmentsOver(g[1..], rest, cur + [g[0]]);
      assert cur + [g[0]] + g[1..] == cur + g;
    }
  }

  lemma {:induction false} SegmentsJoined(segs: seq<string>)
    requires SegmentTexts(segs)
    ensures Segments(Join(segs), "") == segs
    decreases |segs|
  {
    if segs != [] {
      var g := segs[0];
      assert "" + g == g;
      if |segs| == 1 {
        SegmentsOver(g, "", "");
        assert g + "" == g;
      } else {
        var more := "/" + Join(segs[1..]);
        assert Join(segs) == g + more && more[1..] == Join(segs[1..]);
        SegmentsOver(g, more, "");
        SegmentsJoined(segs[1..]);
        assert segs == [g] + segs[1..];
      }
    }
  }

  lemma {:induction false} NoQuery(s: string)
    requires '?' !in s
    ensures BeforeQuery(s) == s
    decreases |s|
  {
    if s != "" {
      NoQuery(s[1..]);
    }
  }

  lemma {:induction false} BeforeQueryOver(s: string, r: string)
    ensures BeforeQuery(s + r) == if '?' in s then BeforeQuery(s) else s + BeforeQuery(r)
    decreases |s|
  {
    if s == "" {
      assert s + r == r;
    } else {
      assert (s + r)[0] == s[0] && (s + r)[1..] == s[1..] + r;
      BeforeQueryOver(s[1..], r);
    }
  }

  lemma {:induction false} JoinedText(segs: seq<string>)
    requires SegmentTexts(segs)
    ensures '?' !in Join(segs)
    ensures segs != [] ==> Join(segs) != "" && Join(segs)[|Join(segs)| - 1] == segs[|segs| - 1][|segs[|segs| - 1]| - 1]
    decreases |segs|
  {
    if |segs| > 1 {
      JoinedText(segs[1..]);
    }
  }

  // The path of some segments has exactly these.
  lemma SplitJoined(segs: seq<string>)
    requires SegmentTexts(segs) && (segs != [] ==> EndsBare(segs[|segs| - 1]))
    ensures SplitPath("/" + Join(segs)) == segs
  {
    var s := "/" + Join(segs);
    JoinedText(segs);
    TrimStartWhite(s);
    TrimEndBare(s);
    NoQuery(s);
    assert s[1..] == Join(segs);
    SegmentsJoined(segs);
    assert [] + segs == segs;
  }

  // Segments joined again: nothing between them but one slash.
  lemma {:induction false} JoinBetween(a: seq<string>, b: seq<string>)
    requires a != [] && b != []
    ensures Join(a + b) == Join(a) + "/" + Join(b)
    decreases |a|
  {
    assert (a + b)[0] == a[0] && (a + b)[1..] == a[1..] + b;
    if |a| == 1 {
      assert a[1..] + b == b;
    } else {
      JoinBetween(a[1..], b);
      assert a[0] + "/" + (Join(a[1..]) + "/" + Join(b)) == a[0] + "/" + Join(a[1..]) + "/" + Join(b);
    }
  }

  lemma {:induction false} TrimStartIn(s: string)
    ensures forall c :: c in TrimStart(s) ==> c in s
    decreases |s|
  {
    if s != "" && IsWhite(s[0]) {
      TrimStartIn(s[1..]);
    }
  }

  lemma {:induction false} TrimStartTail(s: string)
    requires EndsBare(s)
    ensures EndsBare(TrimStart(s))
    decreases |s|
  {
    if s != "" && IsWhite(s[0]) {
      TrimStartTail(s[1..]);
    }
  }

  lemma QueryFirst(q: string)
    ensures BeforeQuery("?" + q) == ""
  {
  }

  lemma MarkIsBare()
    ensures StartsBare("?") && EndsBare("?")
  {
  }

  // What a query says does not matter.
  lemma QueryIgnored(p: string, q: string)
    requires '?' !in p && EndsBare(p)
    ensures SplitPath(p + "?" + q) == SplitPath(p)
  {
    MarkIsBare();
    hide TrimStart, TrimEnd, BeforeQuery, Segments, StartsBare;
    var front, back := TrimStart(p), TrimEnd(q);
    TrimAround(p, "?", q);
    TrimStartIn(p);
    assert front + "?" + back == front + ("?" + back);
    BeforeQueryOver(front, "?" + back);
    QueryFirst(back);
    TrimStartTail(p);
    TrimEndBare(front);
    NoQuery(front);
    assert front + "" == front;
  }

  // White space is what Unicode lists as such.
  const WHITE: string :=
    " \t\n\U{0B}\U{0C}\r\U{85}\U{A0}\U{1680}\U{2000}\U{2001}\U{2002}\U{2003}\U{2004}\U{2005}\U{2006}" +
    "\U{2007}\U{2008}\U{2009}\U{200A}\U{2028}\U{2029}\U{202F}\U{205F}\U{3000}"

  lemma WhiteListed(c: char)
    ensures IsWhite(c) <==> c in WHITE
  {
    assert c in WHITE <==>
      c in " \t\n\U{0B}\U{0C}\r\U{85}\U{A0}\U{1680}\U{2000}\U{2001}\U{2002}\U{2003}\U{2004}\U{2005}\U{2006}" ||
      c in "\U{2007}\U{2008}\U{2009}\U{200A}\U{2028}\U{2029}\U{202F}\U{205F}\U{3000}";
  }

  // Nor does white space around a path.
  lemma WhiteIgnored(w: string, p: string, w': string)
    requires AllWhite(w) && AllWhite(w')
    ensures SplitPath(w + p + w') == SplitPath(p)
  {
    TrimSurrounded(w, p, w');
  }

  lemma {:induction false} SegmentsSlash(a: string, b: string, cur: string)
    ensures Segments(a + "//" + b, cur) == Segments(a + "/" + b, cur)
    ensures Segments(a + "/", cur) == Segments(a, cur)
    decreases |a|
  {
    var s, t := a + "//" + b, a + "/" + b;
    if a == "" {
      assert s[1..] == "/" + b && t[1..] == b && ("/" + b)[1..] == b;
      assert [] + Segments(b, "") == Segments(b, "");
      assert ("" + "/")[1..] == "";
    } else {
      assert s[1..] == a[1..] + "//" + b && t[1..] == a[1..] + "/" + b && (a + "/")[1..] == a[1..] + "/";
      SegmentsSlash(a[1..], b, if a[0] == '/' then "" else cur + [a[0]]);
    }
  }

  lemma BeforeSlashes(b: string)
    ensures BeforeQuery("//" + b) == "//" + BeforeQuery(b) && BeforeQuery("/" + b) == "/" + BeforeQuery(b)
    ensures BeforeQuery("/") == "/"
  {
    assert ("//" + b)[1..] == "/" + b && ("/" + b)[1..] == b && "/"[1..] == "";
  }

  lemma QueryBehind(a: string, slashes: string, b: string)
    requires slashes == "/" || slashes == "//"
    ensures BeforeQuery(a + slashes + b) == if '?' in a then BeforeQuery(a) else a + slashes + BeforeQuery(b)
  {
    hide BeforeQuery;
    BeforeSlashes(b);
    assert a + slashes + b == a + (slashes + b);
    BeforeQueryOver(a, slashes + b);
    assert a + (slashes + BeforeQuery(b)) == a + slashes + BeforeQuery(b);
  }

  // Nor does a slash too many inside a path.
  lemma DoubledSlash(a: string, b: string)
    ensures SplitPath(a + "//" + b) == SplitPath(a + "/" + b)
  {
    hide TrimStart, TrimEnd, BeforeQuery, Segments;
    var a', b' := TrimStart(a), TrimEnd(b);
    assert !IsWhite('/');
    TrimAround(a, "//", b);
    TrimAround(a, "/", b);
    QueryBehind(a', "/", b');
    QueryBehind(a', "//", b');
    SegmentsSlash(a', BeforeQuery(b'), "");
  }

  lemma NoQueryIn(s: string)
    ensures '?' !in s ==> BeforeQuery(s) == s
  {
    if '?' !in s {
      NoQuery(s);
    }
  }

  // Nor one at the end.
  lemma TrailingSlash(a: string)
    requires EndsBare(a)
    ensures SplitPath(a + "/") == SplitPath(a)
  {
    hide TrimStart, TrimEnd, BeforeQuery, Segments;
    var a' := TrimStart(a);
    assert !IsWhite('/');
    TrimAround(a, "/", "");
    TrimEndBare("");
    assert a + "/" + "" == a + "/" && a' + "/" + TrimEnd("") == a' + "/";
    TrimStartTail(a);
    TrimEndBare(a');
    BeforeQueryOver(a', "/");
    BeforeSlashes("");
    NoQueryIn(a');
    SegmentsSlash(a', "", "");
  }

  // ---------------------------------------------------------------- which methods are the same

  // The same letter of the alphabet in both cases, or the same character.
  predicate SameLetter(c: char, d: char)
  {
    || c == d
    || ('a' <= c <= 'z' && 'A' <= d <= 'Z' && c as int - 'a' as int == d as int - 'A' as int)
    || ('A' <= c <= 'Z' && 'a' <= d <= 'z' && d as int - 'a' as int == c as int - 'A' as int)
  }

  predicate SameLetters(a: string, b: string)
  {
    |a| == |b| && forall i :: 0 <= i < |a| ==> SameLetter(a[i], b[i])
  }

  lemma UpperLetter(c: char, d: char)
    ensures UpperChar(c) == UpperChar(d) <==> SameLetter(c, d)
    ensures !('a' <= c <= 'z') ==> UpperChar(c) == c
    ensures !('a' <= UpperChar(c) <= 'z')
  {
  }

  lemma {:induction false} UpperAt(a: string)
    ensures |Upper(a)| == |a| && forall i :: 0 <= i < |a| ==> Upper(a)[i] == UpperChar(a[i])
    decreases |a|
  {
    hide UpperChar;
    if a != "" {
      UpperAt(a[1..]);
    }
  }

  lemma UpperSame(a: string, b: string)
    ensures Upper(a) == Upper(b) <==> SameLetters(a, b)
  {
    hide UpperChar, SameLetter;
    UpperAt(a);
    UpperAt(b);
    forall i | 0 <= i < |a| && i < |b| ensures UpperChar(a[i]) == UpperChar(b[i]) <==> SameLetter(a[i], b[i]) {
      UpperLetter(a[i], b[i]);
    }
    if Upper(a) == Upper(b) {
      forall i | 0 <= i < |a| ensures SameLetter(a[i], b[i]) {
        assert Upper(a)[i] == Upper(b)[i];
      }
    }
    if SameLetters(a, b) {
      assert forall i :: 0 <= i < |a| ==> Upper(a)[i] == Upper(b)[i];
    }
  }

  lemma TrimBare(s: string)
    requires StartsBare(s) && EndsBare(s)
    ensures Trim(s) == s
  {
    TrimStartWhite(s);
    TrimEndBare(s);
  }

  // Two methods have one key exactly when they are one but for the case of letters, whatever white
  // space is around them; and a method in upper case is its own key.
  lemma SameMethod(w: string, a: string, w': string, b: string)
    requires AllWhite(w) && AllWhite(w')
    requires StartsBare(a) && EndsBare(a) && StartsBare(b) && EndsBare(b)
    ensures MethodKey(w + a + w') == MethodKey(b) <==> SameLetters(a, b)
    ensures (forall i :: 0 <= i < |b| ==> !('a' <= b[i] <= 'z')) ==> MethodKey(b) == b
  {
    hide Upper;
    TrimSurrounded(w, a, w');
    TrimBare(a);
    TrimBare(b);
    UpperSame(a, b);
    UpperAt(b);
    if forall i :: 0 <= i < |b| ==> !('a' <= b[i] <= 'z') {
      forall i | 0 <= i < |b| ensures Upper(b)[i] == b[i] {
        UpperLetter(b[i], b[i]);
      }
    }
  }

  // ---------------------------------------------------------------- what a request binds

  // Segment by segment a pattern's text fits a request: the same text, or any for a name.
  predicate Fits(texts: seq<string>, segs: seq<string>)
  {
    && |texts| == |segs|
    && forall i :: 0 <= i < |texts| ==>
      texts[i] != "" && texts[i][0] != '*' && (texts[i][0] == ':' || texts[i] == segs[i])
  }

  lemma FitsRest(texts: seq<string>, segs: seq<string>)
    requires texts != [] && segs != []
    ensures Fits(texts, segs) <==>
      && texts[0] != "" && texts[0][0] != '*' && (texts[0][0] == ':' || texts[0] == segs[0])
      && Fits(texts[1..], segs[1..])
  {
    var a, b := texts[1..], segs[1..];
    if Fits(a, b) && texts[0] != "" && texts[0][0] != '*' && (texts[0][0] == ':' || texts[0] == segs[0]) {
      forall i | 0 <= i < |texts|
        ensures texts[i] != "" && texts[i][0] != '*' && (texts[i][0] == ':' || texts[i] == segs[i])
      {
        assert i > 0 ==> texts[i] == a[i - 1] && segs[i] == b[i - 1];
      }
    }
    if Fits(texts, segs) {
      assert forall i :: 0 <= i < |a| ==> a[i] == texts[i + 1] && b[i] == segs[i + 1];
    }
  }

  // A pattern without a wildcard matches exactly what fits it.
  lemma {:induction false} MatchesExactly(texts: seq<string>, segs: seq<string>)
    requires "" !in texts && forall i :: 0 <= i < |texts| ==> texts[i] != "" && texts[i][0] != '*'
    ensures Matches(PatternOf(texts), segs) <==> Fits(texts, segs)
    decreases |texts|
  {
    var p := PatternOf(texts);
    if texts == [] {
    } else {
      assert p[0] == SegmentOf(texts[0]) && p[1..] == PatternOf(texts[1..]);
      if segs != [] {
        MatchesExactly(texts[1..], segs[1..]);
        FitsRest(texts, segs);
      }
    }
  }

  // Is this the first place of the pattern where the name stands?
  predicate NamedFirst(texts: seq<string>, n: string, i: nat)
  {
    i < |texts| && texts[i] == ":" + n && forall j :: 0 <= j < i ==> texts[j] != ":" + n
  }

  lemma NameText(text: string, n: string)
    requires text != ""
    ensures SegmentOf(text) == Param(n) <==> text == ":" + n
    ensures text[0] != '*' && text[0] != ':' ==> SegmentOf(text) == Static(text)
    ensures text[0] == ':' ==> SegmentOf(text).Param?
  {
    assert text[0] == ':' ==> text == ":" + text[1..];
    assert (":" + n)[1..] == n;
  }

  /** A request binds exactly the names of its pattern, without their colons, each to the segment where
      it stands first. */
  lemma {:induction false} BindsNames(texts: seq<string>, segs: seq<string>, n: string)
    requires "" !in texts && Fits(texts, segs)
    ensures n in Bindings(PatternOf(texts), segs) <==> ":" + n in texts
    ensures forall i: nat :: NamedFirst(texts, n, i) ==>
      n in Bindings(PatternOf(texts), segs) && Bindings(PatternOf(texts), segs)[n] == segs[i]
    decreases |texts|
  {
    var p := PatternOf(texts);
    if texts != [] {
      assert p[0] == SegmentOf(texts[0]) && p[1..] == PatternOf(texts[1..]);
      FitsRest(texts, segs);
      BindsNames(texts[1..], segs[1..], n);
      NameText(texts[0], n);
      assert texts == [texts[0]] + texts[1..];
      forall i: nat | NamedFirst(texts, n, i)
        ensures n in Bindings(p, segs) && Bindings(p, segs)[n] == segs[i]
      {
        if i > 0 {
          assert texts[1..][i - 1] == texts[i] && segs[1..][i - 1] == segs[i];
          forall j | 0 <= j < i - 1 ensures texts[1..][j] != ":" + n {
            assert texts[1..][j] == texts[j + 1];
          }
          assert NamedFirst(texts[1..], n, i - 1);
        }
      }
    }
  }

  // A wildcard behind it binds what is left of the path.
  lemma {:induction false} WildBinds(texts: seq<string>, n: string, segs: seq<string>, rest: seq<string>)
    requires "" !in texts && Fits(texts, segs) && n != "" && ":" + n !in texts
    ensures var p := PatternOf(texts + ["*" + n]);
      Matches(p, segs + rest) && n in Bindings(p, segs + rest) && Bindings(p, segs + rest)[n] == Join(rest)
    decreases |texts|
  {
    var all, request := texts + ["*" + n], segs + rest;
    assert "" !in all;
    var p := PatternOf(all);
    if texts == [] {
      assert all == ["*" + n] && request == rest && ("*" + n)[1..] == n && all[1..] == [];
      assert p == [Wildcard(n)];
    } else {
      assert all[0] == texts[0] && all[1..] == texts[1..] + ["*" + n];
      assert request[0] == segs[0] && request[1..] == segs[1..] + rest;
      assert p[0] == SegmentOf(texts[0]) && p[1..] == PatternOf(all[1..]);
      FitsRest(texts, segs);
      NameText(texts[0], n);
      WildBinds(texts[1..], n, segs[1..], rest);
    }
  }

  // A star alone is called a star.
  lemma StarBinds(rest: seq<string>)
    ensures PatternOf(["*"]) == [Wildcard("*")] && Matches([Wildcard("*")], rest)
    ensures Bindings([Wildcard("*")], rest) == map["*" := Join(rest)]
  {
    assert ["*"][1..] == [];
  }

  lemma OwnKey(p: seq<Segment>, m: string)
    ensures m in KeysFor(p, m)
  {
    assert ExactKeys(m)[0] == m && WildKeys(m)[0] == m;
  }

  lemma SoleRoute(r: Route, segs: seq<string>)
    requires Matches(r.pattern, segs)
    ensures Answer([r], segs, r.key, Some(Found(r.handler, Bindings(r.pattern, segs))))
  {
    hide Matches, Bindings;
    assert Serves(r.pattern, r.key, segs, r.key) by { OwnKey(r.pattern, r.key); }
    assert LastHandler([r], r.pattern, r.key) == Some(r.handler);
    assert WinsWith([r], segs, r.key, r.pattern, r.key, Found(r.handler, Bindings(r.pattern, segs)));
  }

  /** A router with one route answers a request whose path fits the route's, in any case of the method
      and with any query, with the route's handler and its names bound. */
  lemma OneRoute(method': string, request: string, texts: seq<string>, segs: seq<string>, query: string, h: Value)
    requires SegmentTexts(texts) && SegmentTexts(segs) && Fits(texts, segs)
    requires texts != [] ==> EndsBare(texts[|texts| - 1]) && EndsBare(segs[|segs| - 1])
    requires SameLetters(method', request)
    requires StartsBare(method') && EndsBare(method') && StartsBare(request) && EndsBare(request)
    ensures "" !in texts
    ensures
      var routes := [RouteOf(method', "/" + Join(texts), h)];
      Answer(routes, SplitPath("/" + Join(segs) + "?" + query), MethodKey(request),
        Some(Found(h, Bindings(PatternOf(texts), segs))))
  {
    SplitJoined(texts);
    SplitJoined(segs);
    JoinedText(segs);
    QueryIgnored("/" + Join(segs), query);
    assert "" + method' + "" == method';
    SameMethod("", method', "", request);
    assert forall i :: 0 <= i < |texts| ==> texts[i] != "";
    MatchesExactly(texts, segs);
    hide MethodKey, SplitPath, Join, Matches, Bindings, Fits, SegmentTexts;
    var r := RouteOf(method', "/" + Join(texts), h);
    SoleRoute(r, segs);
  }

  // The keys under which a method is answered: its own and the fallbacks, of which one does not reach
  // a wildcard.
  lemma KeysExactly(p: seq<Segment>, key: string, m: string)
    ensures key in KeysFor(p, m) <==>
      key == m || key == "ALL" || key == "*" || (key == "ANY" && !(p != [] && p[|p| - 1].Wildcard?))
  {
    assert ExactKeys(m)[0] == m && ExactKeys(m)[1] == "ALL" && ExactKeys(m)[2] == "*" && ExactKeys(m)[3] == "ANY";
    assert WildKeys(m)[0] == m && WildKeys(m)[1] == "ALL" && WildKeys(m)[2] == "*";
  }
}
