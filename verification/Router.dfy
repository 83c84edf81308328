/** The segment-tree router (crates/eronom-vm/src/router.rs), and the flat list of routes that it
    answers for: the tree's depth-first search with backtracking finds the best route of the list. */
module Router {
  import opened MachineWords
  import opened Options

  // ---------------------------------------------------------------- paths and methods

  // Unicode White_Space, which str::trim removes.
  predicate IsWhite(c: char)
  {
    '\t' <= c <= '\r' || c == ' ' || c == '\U{85}' || c == '\U{A0}' || c == '\U{1680}' || '\U{2000}' <= c <= '\U{200A}'
    || c == '\U{2028}' || c == '\U{2029}' || c == '\U{202F}' || c == '\U{205F}' || c == '\U{3000}'
  }

  function TrimStart(s: string): string
  {
    if s != "" && IsWhite(s[0]) then TrimStart(s[1..]) else s
  }

  function TrimEnd(s: string): string
  {
    if s != "" && IsWhite(s[|s| - 1]) then TrimEnd(s[..|s| - 1]) else s
  }

  function Trim(s: string): string
  {
    TrimEnd(TrimStart(s))
  }

  function BeforeQuery(s: string): string
  {
    if s == "" || s[0] == '?' then "" else [s[0]] + BeforeQuery(s[1..])
  }

  // The non-empty stretches between slashes; cur is the stretch begun.
  function Segments(s: string, cur: string): (r: seq<string>)
  {
    if s == "" then (if cur == "" then [] else [cur])
    else if s[0] == '/' then (if cur == "" then [] else [cur]) + Segments(s[1..], "")
    else Segments(s[1..], cur + [s[0]])
  }

  function SplitPath(path: string): seq<string>
  {
    Segments(BeforeQuery(Trim(path)), "")
  }

  function UpperChar(c: char): char
  {
    if 'a' <= c <= 'z' then (c as int - 32) as char else c
  }

  function Upper(s: string): string
  {
    if s == "" then "" else [UpperChar(s[0])] + Upper(s[1..])
  }

  function MethodKey(method': string): string
  {
    Upper(Trim(method'))
  }

  // The segments joined by slashes again.
  function Join(segs: seq<string>): string
  {
    if segs == [] then "" else if |segs| == 1 then segs[0] else segs[0] + "/" + Join(segs[1..])
  }

  // ---------------------------------------------------------------- routes

  // A handler is a boxed word of the VM.
  type Value = i64

  datatype Segment = Root | Static(text: string) | Param(name: string) | Wildcard(wild: string)

  // How a pattern's segment is read.
  function SegmentOf(seg: string): (s: Segment)
    requires seg != ""
    ensures s != Root
  {
    if seg[0] == '*' then Wildcard(if seg == "*" then "*" else seg[1..])
    else if seg[0] == ':' then Param(seg[1..])
    else Static(seg)
  }

  function PatternOf(segs: seq<string>): (p: seq<Segment>)
    requires "" !in segs
    ensures |p| == |segs| && Root !in p
  {
    if segs == [] then [] else [SegmentOf(segs[0])] + PatternOf(segs[1..])
  }

  datatype Route = Route(pattern: seq<Segment>, key: string, handler: Value)

  // Does a pattern match the segments of a request?  Nothing below a wildcard is ever reached.
  predicate Matches(p: seq<Segment>, segs: seq<string>)
  {
    if p == [] then segs == []
    else match p[0]
      case Static(t) => segs != [] && segs[0] == t && Matches(p[1..], segs[1..])
      case Param(_) => segs != [] && Matches(p[1..], segs[1..])
      case Wildcard(_) => |p| == 1
      case Root => false
  }

  function ExactKeys(m: string): seq<string> { [m, "ALL", "*", "ANY"] }

  function WildKeys(m: string): seq<string> { [m, "ALL", "*"] }

  predicate EndsWild(p: seq<Segment>)
  {
    p != [] && p[|p| - 1].Wildcard?
  }

  // The keys under which a route answers a method; "ANY" does not reach a wildcard.
  function KeysFor(p: seq<Segment>, m: string): seq<string>
  {
    if EndsWild(p) then WildKeys(m) else ExactKeys(m)
  }

  predicate Serves(p: seq<Segment>, key: string, segs: seq<string>, m: string)
  {
    Matches(p, segs) && key in KeysFor(p, m)
  }

  // What the request binds; of two equal names the one nearer the root counts.
  function Bindings(p: seq<Segment>, segs: seq<string>): map<string, string>
  {
    if p == [] then map[]
    else match p[0]
      case Static(_) => if segs == [] then map[] else Bindings(p[1..], segs[1..])
      case Param(n) => if segs == [] then map[] else Bindings(p[1..], segs[1..])[n := segs[0]]
      case Wildcard(n) => map[n := Join(segs)]
      case Root => map[]
  }

  // The handler registered last under a pattern and a key.
  function LastHandler(routes: seq<Route>, p: seq<Segment>, key: string): Option<Value>
  {
    if routes == [] then None
    else
      var r := routes[|routes| - 1];
      if r.pattern == p && r.key == key then Some(r.handler) else LastHandler(routes[..|routes| - 1], p, key)
  }

  // The routes that begin with s, without it, in order.
  function Below(routes: seq<Route>, s: Segment): seq<Route>
  {
    if routes == [] then []
    else
      var r := routes[|routes| - 1];
      Below(routes[..|routes| - 1], s)
        + (if r.pattern != [] && r.pattern[0] == s then [r.(pattern := r.pattern[1..])] else [])
  }

  // The position of the first route that begins with s; the length of the list when none does.
  function FirstAt(routes: seq<Route>, s: Segment): (k: nat)
    ensures k <= |routes|
  {
    if routes == [] then 0
    else
      var k := FirstAt(routes[..|routes| - 1], s);
      var r := routes[|routes| - 1];
      if k < |routes| - 1 || (r.pattern != [] && r.pattern[0] == s) then k else |routes|
  }

  function Rank(s: Segment): nat
  {
    match s case Static(_) => 0 case Param(_) => 1 case Wildcard(_) => 2 case Root => 3
  }

  // Pattern p comes before q: at the first difference an ended pattern wins, then static before
  // parameter before wildcard, then the segment that a route of this prefix used first.
  predicate Before(routes: seq<Route>, p: seq<Segment>, q: seq<Segment>)
    decreases |p|
  {
    if q == [] then false
    else if p == [] then true
    else if p[0] == q[0] then Before(Below(routes, p[0]), p[1..], q[1..])
    else Rank(p[0]) < Rank(q[0]) || (Rank(p[0]) == Rank(q[0]) && FirstAt(routes, p[0]) < FirstAt(routes, q[0]))
  }

  function KeyRank(key: string, m: string): nat
  {
    if key == m then 0 else if key == "ALL" then 1 else if key == "*" then 2 else 3
  }

  // A route under pattern p and key x is preferred to one under q and y, or is the same.
  predicate NotAfter(routes: seq<Route>, m: string, p: seq<Segment>, x: string, q: seq<Segment>, y: string)
  {
    Before(routes, p, q) || (p == q && KeyRank(x, m) <= KeyRank(y, m))
  }

  ghost predicate Wins(routes: seq<Route>, segs: seq<string>, m: string, p: seq<Segment>, x: string)
  {
    && Serves(p, x, segs, m) && LastHandler(routes, p, x).Some?
    && forall r :: r in routes && Serves(r.pattern, r.key, segs, m) ==> NotAfter(routes, m, p, x, r.pattern, r.key)
  }

  datatype Found = Found(handler: Value, binds: map<string, string>)

  ghost predicate WinsWith(routes: seq<Route>, segs: seq<string>, m: string, p: seq<Segment>, x: string, f: Found)
  {
    Wins(routes, segs, m, p, x) && f == Found(LastHandler(routes, p, x).value, Bindings(p, segs))
  }

  // What the flat list of routes answers.
  ghost predicate Answer(routes: seq<Route>, segs: seq<string>, m: string, r: Option<Found>)
  {
    if r.None? then forall t :: t in routes ==> !Serves(t.pattern, t.key, segs, m)
    else exists p, x :: WinsWith(routes, segs, m, p, x, r.value)
  }

  // ---------------------------------------------------------------- the list has one answer

  lemma {:induction false} LastHandlerRoute(routes: seq<Route>, p: seq<Segment>, x: string)
    requires LastHandler(routes, p, x).Some?
    ensures Route(p, x, LastHandler(routes, p, x).value) in routes
  {
    var r := routes[|routes| - 1];
    if !(r.pattern == p && r.key == x) {
      LastHandlerRoute(routes[..|routes| - 1], p, x);
    }
  }

  lemma {:induction false} BeforeOneWay(routes: seq<Route>, p: seq<Segment>, q: seq<Segment>)
    requires Before(routes, p, q)
    ensures !Before(routes, q, p) && p != q
    decreases |p|
  {
    if p != [] && p[0] == q[0] {
      BeforeOneWay(Below(routes, p[0]), p[1..], q[1..]);
    }
  }

  lemma KeysDiffer(p: seq<Segment>, segs: seq<string>, m: string, x: string, y: string)
    requires Serves(p, x, segs, m) && Serves(p, y, segs, m) && KeyRank(x, m) == KeyRank(y, m)
    ensures x == y
  {
  }

  lemma WinnerUnique(routes: seq<Route>, segs: seq<string>, m: string, p: seq<Segment>, x: string, q: seq<Segment>,
      y: string)
    requires Wins(routes, segs, m, p, x) && Wins(routes, segs, m, q, y)
    ensures p == q && x == y
  {
    hide Before, Serves;
    LastHandlerRoute(routes, p, x);
    LastHandlerRoute(routes, q, y);
    assert NotAfter(routes, m, p, x, q, y) && NotAfter(routes, m, q, y, p, x);
    if Before(routes, p, q) {
      BeforeOneWay(routes, p, q);
    } else if Before(routes, q, p) {
      BeforeOneWay(routes, q, p);
    } else {
      KeysDiffer(p, segs, m, x, y);
    }
  }

  lemma WinnerServes(routes: seq<Route>, segs: seq<string>, m: string, p: seq<Segment>, x: string)
    requires Wins(routes, segs, m, p, x)
    ensures exists r :: r in routes && Serves(r.pattern, r.key, segs, m)
  {
    LastHandlerRoute(routes, p, x);
    var r := Route(p, x, LastHandler(routes, p, x).value);
    assert r in routes && Serves(r.pattern, r.key, segs, m);
  }

  lemma AnswerUnique(routes: seq<Route>, segs: seq<string>, m: string, r: Option<Found>, t: Option<Found>)
    requires Answer(routes, segs, m, r) && Answer(routes, segs, m, t)
    ensures r == t
  {
    hide Wins, Bindings;
    if r.Some? {
      var p, x :| WinsWith(routes, segs, m, p, x, r.value);
      if t.Some? {
        var q, y :| WinsWith(routes, segs, m, q, y, t.value);
        WinnerUnique(routes, segs, m, p, x, q, y);
      } else {
        WinnerServes(routes, segs, m, p, x);
      }
    } else if t.Some? {
      var q, y :| WinsWith(routes, segs, m, q, y, t.value);
      WinnerServes(routes, segs, m, q, y);
    }
  }

  // ---------------------------------------------------------------- the tree

  datatype Node = Node(segment: Segment, children: seq<Node>, handlers: map<string, Value>)

  // The handlers of the routes that end here, the last of each key.
  function HandlersOf(routes: seq<Route>): map<string, Value>
  {
    if routes == [] then map[]
    else
      var r := routes[|routes| - 1];
      var before := HandlersOf(routes[..|routes| - 1]);
      if r.pattern == [] then before[r.key := r.handler] else before
  }

  ghost predicate ChildOk(c: Node, routes: seq<Route>)
  {
    c.segment != Root && FirstAt(routes, c.segment) < |routes|
  }

  // Two children stand in the order in which routes first used their segments.
  ghost predicate InOrder(a: Node, b: Node, routes: seq<Route>)
  {
    a.segment != b.segment
      && (Rank(a.segment) == Rank(b.segment) ==> FirstAt(routes, a.segment) < FirstAt(routes, b.segment))
  }

  ghost predicate HasChild(cs: seq<Node>, s: Segment)
  {
    exists i :: 0 <= i < |cs| && cs[i].segment == s
  }

  ghost predicate ChildrenOk(cs: seq<Node>, routes: seq<Route>)
  {
    && (forall i :: 0 <= i < |cs| ==> ChildOk(cs[i], routes))
    && (forall i, j :: 0 <= i < j < |cs| ==> InOrder(cs[i], cs[j], routes))
    && (forall s :: FirstAt(routes, s) < |routes| ==> HasChild(cs, s))
  }

  // The tree below a node holds these routes.
  ghost predicate Represents(node: Node, routes: seq<Route>)
    decreases node
  {
    && node.handlers == HandlersOf(routes)
    && ChildrenOk(node.children, routes)
    && forall c :: c in node.children ==> Represents(c, Below(routes, c.segment))
  }

  // ---------------------------------------------------------------- inserting

  function NewNode(s: Segment): Node { Node(s, [], map[]) }

  function Position(cs: seq<Node>, s: Segment): (k: nat)
    ensures k <= |cs| && (forall i :: 0 <= i < k ==> cs[i].segment != s) && (k < |cs| ==> cs[k].segment == s)
  {
    if cs == [] || cs[0].segment == s then 0 else 1 + Position(cs[1..], s)
  }

  function OfRank(cs: seq<Node>, k: nat): seq<Node>
  {
    if cs == [] then [] else (if Rank(cs[0].segment) == k then [cs[0]] else []) + OfRank(cs[1..], k)
  }

  lemma {:induction false} OfRankMembers(cs: seq<Node>, k: nat)
    ensures forall c :: c in OfRank(cs, k) <==> c in cs && Rank(c.segment) == k
  {
    if cs != [] {
      OfRankMembers(cs[1..], k);
      assert cs == [cs[0]] + cs[1..];
    }
  }

  // A stable sort by rank.
  function ByRank(cs: seq<Node>): seq<Node>
  {
    OfRank(cs, 0) + OfRank(cs, 1) + OfRank(cs, 2) + OfRank(cs, 3)
  }

  lemma ByRankMembers(cs: seq<Node>)
    ensures forall c :: c in ByRank(cs) <==> c in cs
  {
    hide OfRank;
    OfRankMembers(cs, 0);
    OfRankMembers(cs, 1);
    OfRankMembers(cs, 2);
    OfRankMembers(cs, 3);
  }

  // The children with one for s: an empty one goes in at the end and the list is sorted.
  function WithChild(cs: seq<Node>, s: Segment): (r: seq<Node>)
  {
    if Position(cs, s) < |cs| then cs else ByRank(cs + [NewNode(s)])
  }

  lemma WithChildHas(cs: seq<Node>, s: Segment)
    ensures Position(WithChild(cs, s), s) < |WithChild(cs, s)|
    ensures forall c :: c in WithChild(cs, s) <==> c in cs || (Position(cs, s) == |cs| && c == NewNode(s))
  {
    hide ByRank;
    var r := WithChild(cs, s);
    if Position(cs, s) == |cs| {
      ByRankMembers(cs + [NewNode(s)]);
      assert NewNode(s) in cs + [NewNode(s)];
      assert NewNode(s) in r;
      var i :| 0 <= i < |r| && r[i] == NewNode(s);
    }
  }

  // The tree with one more route.
  function Inserted(node: Node, p: seq<Segment>, key: string, h: Value): Node
    decreases |p|
  {
    if p == [] then node.(handlers := node.handlers[key := h])
    else
      WithChildHas(node.children, p[0]);
      var cs := WithChild(node.children, p[0]);
      var k := Position(cs, p[0]);
      node.(children := cs[k := Inserted(cs[k], p[1..], key, h)])
  }

  // ---------------------------------------------------------------- inserting keeps the tree faithful

  lemma Extended(routes: seq<Route>, r: Route)
    ensures (routes + [r])[..|routes|] == routes && (routes + [r])[|routes|] == r
  {
  }

  lemma FirstAtExtended(routes: seq<Route>, r: Route, s: Segment)
    ensures FirstAt(routes + [r], s) == if FirstAt(routes, s) < |routes| || (r.pattern != [] && r.pattern[0] == s)
      then FirstAt(routes, s) else |routes| + 1
  {
    Extended(routes, r);
  }

  lemma {:induction false} FirstAtBelow(routes: seq<Route>, s: Segment)
    ensures FirstAt(routes, s) == |routes| <==> Below(routes, s) == []
  {
    if routes != [] {
      FirstAtBelow(routes[..|routes| - 1], s);
    }
  }

  lemma {:induction false} OfRankFrom(cs: seq<Node>, k: nat, j: nat) returns (j': nat)
    requires j < |OfRank(cs, k)|
    ensures j' < |cs| && cs[j'] == OfRank(cs, k)[j]
    decreases |cs|
  {
    if Rank(cs[0].segment) != k {
      j' := OfRankFrom(cs[1..], k, j);
      j' := j' + 1;
    } else if j > 0 {
      j' := OfRankFrom(cs[1..], k, j - 1);
      j' := j' + 1;
    } else {
      j' := 0;
    }
  }

  // An order-keeping selection: the i-th kept child stood before the j-th.
  lemma {:induction false} OfRankKeepsOrder(cs: seq<Node>, k: nat, i: nat, j: nat) returns (i': nat, j': nat)
    requires i < j < |OfRank(cs, k)|
    ensures i' < j' < |cs| && cs[i'] == OfRank(cs, k)[i] && cs[j'] == OfRank(cs, k)[j]
    decreases |cs|
  {
    var tail := cs[1..];
    if Rank(cs[0].segment) != k {
      i', j' := OfRankKeepsOrder(tail, k, i, j);
    } else if i > 0 {
      i', j' := OfRankKeepsOrder(tail, k, i - 1, j - 1);
    } else {
      j' := OfRankFrom(tail, k, j - 1);
      return 0, j' + 1;
    }
    i', j' := i' + 1, j' + 1;
  }

  // Which rank's stretch a position of the sorted list lies in, and where in it.
  lemma ByRankAt(cs: seq<Node>, i: nat) returns (at: (nat, nat))
    requires i < |ByRank(cs)|
    ensures at.0 < 4 && at.1 < |OfRank(cs, at.0)| && ByRank(cs)[i] == OfRank(cs, at.0)[at.1]
    ensures i == at.1 + (if at.0 > 0 then |OfRank(cs, 0)| else 0) + (if at.0 > 1 then |OfRank(cs, 1)| else 0)
      + (if at.0 > 2 then |OfRank(cs, 2)| else 0)
  {
    hide OfRank;
    var a, b, c := |OfRank(cs, 0)|, |OfRank(cs, 1)|, |OfRank(cs, 2)|;
    at := if i < a then (0, i) else if i < a + b then (1, i - a) else if i < a + b + c then (2, i - a - b)
      else (3, i - a - b - c);
  }

  lemma ByRankPair(cs: seq<Node>, routes: seq<Route>, i: nat, j: nat)
    requires forall i, j :: 0 <= i < j < |cs| ==> InOrder(cs[i], cs[j], routes)
    requires i < j < |ByRank(cs)|
    ensures InOrder(ByRank(cs)[i], ByRank(cs)[j], routes)
  {
    var a, b := ByRank(cs)[i], ByRank(cs)[j];
    var k := ByRankAt(cs, i);
    var l := ByRankAt(cs, j);
    if k.0 == l.0 {
      var _, _ := OfRankKeepsOrder(cs, k.0, k.1, l.1);
    } else {
      OfRankMembers(cs, k.0);
      OfRankMembers(cs, l.0);
      assert a in OfRank(cs, k.0) && b in OfRank(cs, l.0);
    }
  }

  // Sorting by rank keeps the order the search depends on.
  lemma ByRankInOrder(cs: seq<Node>, routes: seq<Route>)
    requires forall i, j :: 0 <= i < j < |cs| ==> InOrder(cs[i], cs[j], routes)
    ensures forall i, j :: 0 <= i < j < |ByRank(cs)| ==> InOrder(ByRank(cs)[i], ByRank(cs)[j], routes)
  {
    hide InOrder;
    var r := ByRank(cs);
    forall i, j | 0 <= i < j < |r| ensures InOrder(r[i], r[j], routes) {
      ByRankPair(cs, routes, i, j);
    }
  }

  // A segment without a child has not been used by a route.
  lemma NewIsLast(cs: seq<Node>, routes: seq<Route>, s: Segment)
    requires ChildrenOk(cs, routes) && Position(cs, s) == |cs|
    ensures FirstAt(routes, s) == |routes|
  {
    assert !HasChild(cs, s);
  }

  lemma OrderExtended(cs: seq<Node>, routes: seq<Route>, r: Route)
    requires ChildrenOk(cs, routes) && r.pattern != [] && r.pattern[0] != Root
    ensures
      var cs' := WithChild(cs, r.pattern[0]);
      forall i, j :: 0 <= i < j < |cs'| ==> InOrder(cs'[i], cs'[j], routes + [r])
  {
    hide HasChild, ByRank;
    var s := r.pattern[0];
    var all := routes + [r];
    var longer := if Position(cs, s) < |cs| then cs else cs + [NewNode(s)];
    forall i, j | 0 <= i < j < |longer| ensures InOrder(longer[i], longer[j], all) {
      assert ChildOk(longer[i], routes);
      FirstAtExtended(routes, r, longer[i].segment);
      FirstAtExtended(routes, r, longer[j].segment);
      if j < |cs| {
        assert InOrder(cs[i], cs[j], routes);
        assert ChildOk(cs[j], routes);
      } else {
        assert j == |cs| && FirstAt(all, s) <= |routes|;
        NewIsLast(cs, routes, s);
      }
    }
    if Position(cs, s) == |cs| {
      ByRankInOrder(longer, all);
    }
  }

  lemma ChildrenExtended(cs: seq<Node>, routes: seq<Route>, r: Route)
    requires ChildrenOk(cs, routes) && r.pattern != [] && r.pattern[0] != Root
    ensures ChildrenOk(WithChild(cs, r.pattern[0]), routes + [r])
  {
    var s := r.pattern[0];
    var all := routes + [r];
    var cs' := WithChild(cs, s);
    forall t ensures FirstAt(all, t) == if FirstAt(routes, t) < |routes| || t == s then FirstAt(routes, t)
      else |routes| + 1 {
      FirstAtExtended(routes, r, t);
    }
    WithChildHas(cs, s);
    OrderExtended(cs, routes, r);
    forall i | 0 <= i < |cs'| ensures ChildOk(cs'[i], all) {
      assert cs'[i] in cs';
      if cs'[i] in cs {
        var k :| 0 <= k < |cs| && cs[k] == cs'[i];
      }
    }
    forall t | FirstAt(all, t) < |all| ensures HasChild(cs', t) {
      if t == s {
        assert cs'[Position(cs', s)].segment == s;
      } else {
        assert HasChild(cs, t);
        var k :| 0 <= k < |cs| && cs[k].segment == t;
        assert cs[k] in cs';
        var k' :| 0 <= k' < |cs'| && cs'[k'] == cs[k];
      }
    }
  }

  lemma BelowExtended(routes: seq<Route>, r: Route, s: Segment)
    ensures Below(routes + [r], s) == if r.pattern != [] && r.pattern[0] == s
      then Below(routes, s) + [r.(pattern := r.pattern[1..])] else Below(routes, s)
    ensures HandlersOf(routes + [r]) == if r.pattern == [] then HandlersOf(routes)[r.key := r.handler]
      else HandlersOf(routes)
  {
    Extended(routes, r);
  }

  lemma EmptyRepresents(s: Segment)
    ensures Represents(NewNode(s), [])
  {
  }

  // Replacing a child by one with the same segment leaves the order alone.
  lemma ReplaceChild(cs: seq<Node>, routes: seq<Route>, k: nat, c: Node)
    requires ChildrenOk(cs, routes) && k < |cs| && c.segment == cs[k].segment
    ensures ChildrenOk(cs[k := c], routes)
  {
    var cs' := cs[k := c];
    forall i, j | 0 <= i < j < |cs'| ensures InOrder(cs'[i], cs'[j], routes) {
      assert InOrder(cs[i], cs[j], routes);
    }
    forall i | 0 <= i < |cs'| ensures ChildOk(cs'[i], routes) {
      assert ChildOk(cs[i], routes);
    }
    forall s | FirstAt(routes, s) < |routes| ensures HasChild(cs', s) {
      assert HasChild(cs, s);
      var i :| 0 <= i < |cs| && cs[i].segment == s;
      assert cs'[i].segment == s;
    }
  }

  lemma SameChildren(cs: seq<Node>, routes: seq<Route>, r: Route)
    requires ChildrenOk(cs, routes) && r.pattern == []
    ensures ChildrenOk(cs, routes + [r])
  {
    var all := routes + [r];
    forall t ensures FirstAt(all, t) == if FirstAt(routes, t) < |routes| then FirstAt(routes, t) else |routes| + 1 {
      FirstAtExtended(routes, r, t);
    }
    forall i | 0 <= i < |cs| ensures ChildOk(cs[i], all) {
      assert ChildOk(cs[i], routes);
    }
    forall i, j | 0 <= i < j < |cs| ensures InOrder(cs[i], cs[j], all) {
      assert InOrder(cs[i], cs[j], routes) && ChildOk(cs[i], routes) && ChildOk(cs[j], routes);
    }
    forall t | FirstAt(all, t) < |all| ensures HasChild(cs, t) {
    }
  }

  // Every child of the extended list represents its routes: an old one as before, a new one none.
  lemma ChosenRepresents(node: Node, routes: seq<Route>, s: Segment, c: Node)
    requires Represents(node, routes) && c.segment == s
    requires c in node.children || (Position(node.children, s) == |node.children| && c == NewNode(s))
    ensures Represents(c, Below(routes, s))
  {
    hide Below, HandlersOf;
    if c !in node.children {
      NewIsLast(node.children, routes, s);
      FirstAtBelow(routes, s);
      EmptyRepresents(s);
    }
  }

  lemma OtherSegment(cs: seq<Node>, routes: seq<Route>, i: nat, k: nat)
    requires ChildrenOk(cs, routes) && i < |cs| && k < |cs| && i != k
    ensures cs[i].segment != cs[k].segment
  {
    assert if i < k then InOrder(cs[i], cs[k], routes) else InOrder(cs[k], cs[i], routes);
  }

  lemma {:induction false} InsertedRepresents(node: Node, routes: seq<Route>, p: seq<Segment>, key: string, h: Value)
    requires Represents(node, routes) && Root !in p
    ensures Represents(Inserted(node, p, key, h), routes + [Route(p, key, h)])
    ensures Inserted(node, p, key, h).segment == node.segment
    decreases |p|
  {
    hide ChildrenOk, WithChild, Below, HandlersOf;
    var r := Route(p, key, h);
    var all := routes + [r];
    BelowExtended(routes, r, Root);
    if p == [] {
      SameChildren(node.children, routes, r);
      forall c | c in node.children ensures Represents(c, Below(all, c.segment)) {
        BelowExtended(routes, r, c.segment);
      }
    } else {
      var s := p[0];
      var cs := WithChild(node.children, s);
      WithChildHas(node.children, s);
      var k := Position(cs, s);
      ChildrenExtended(node.children, routes, r);
      ChosenRepresents(node, routes, s, cs[k]);
      InsertedRepresents(cs[k], Below(routes, s), p[1..], key, h);
      BelowExtended(routes, r, s);
      var c' := Inserted(cs[k], p[1..], key, h);
      ReplaceChild(cs, all, k, c');
      forall c | c in cs[k := c'] ensures Represents(c, Below(all, c.segment)) {
        var i :| 0 <= i < |cs| && cs[k := c'][i] == c;
        if i != k {
          assert cs[i] in cs;
          OtherSegment(cs, all, i, k);
          BelowExtended(routes, r, c.segment);
          ChosenRepresents(node, routes, c.segment, c);
        }
      }
    }
  }

  // ---------------------------------------------------------------- searching

  // The first of the keys that has a handler.
  function Pick(handlers: map<string, Value>, keys: seq<string>): (k: Option<string>)
    ensures k.Some? ==> k.value in handlers && k.value in keys
    ensures k.None? ==> forall x :: x in keys ==> x !in handlers
  {
    if keys == [] then None else if keys[0] in handlers then Some(keys[0]) else Pick(handlers, keys[1..])
  }

  // One child in one of the three passes (0 static, 1 parameter, 2 wildcard).
  function Visit(c: Node, segs: seq<string>, m: string, pass: nat): Option<Found>
    decreases |segs|, 0
  {
    if Rank(c.segment) != pass then None
    else match c.segment
      case Static(t) => if segs != [] && t == segs[0] then Search(c, segs[1..], m) else None
      case Param(n) =>
        if segs == [] then None
        else (match Search(c, segs[1..], m)
              case Some(f) => Some(f.(binds := f.binds[n := segs[0]]))
              case None => None)
      case Wildcard(n) =>
        (match Pick(c.handlers, WildKeys(m))
         case Some(k) => Some(Found(c.handlers[k], map[n := Join(segs)]))
         case None => None)
      case Root => None
  }

  function VisitAll(cs: seq<Node>, segs: seq<string>, m: string, pass: nat): Option<Found>
    decreases |segs|, 1, |cs|
  {
    if cs == [] then None
    else match Visit(cs[0], segs, m, pass)
      case Some(f) => Some(f)
      case None => VisitAll(cs[1..], segs, m, pass)
  }

  // Depth first, static before parameter before wildcard children.
  function Search(node: Node, segs: seq<string>, m: string): Option<Found>
    decreases |segs|, 2
  {
    if segs == [] then
      match Pick(node.handlers, ExactKeys(m))
      case Some(k) => Some(Found(node.handlers[k], map[]))
      case None => VisitAll(node.children, segs, m, 2)
    else
      match VisitAll(node.children, segs, m, 0)
      case Some(f) => Some(f)
      case None =>
        match VisitAll(node.children, segs, m, 1)
        case Some(f) => Some(f)
        case None => VisitAll(node.children, segs, m, 2)
  }

  // ---------------------------------------------------------------- the search answers for the list

  lemma {:induction false} HandlersAreLast(routes: seq<Route>, key: string)
    ensures key in HandlersOf(routes) <==> LastHandler(routes, [], key).Some?
    ensures key in HandlersOf(routes) ==> LastHandler(routes, [], key) == Some(HandlersOf(routes)[key])
  {
    if routes != [] {
      HandlersAreLast(routes[..|routes| - 1], key);
    }
  }

  lemma {:induction false} LastBelow(routes: seq<Route>, s: Segment, p: seq<Segment>, key: string)
    ensures LastHandler(Below(routes, s), p, key) == LastHandler(routes, [s] + p, key)
  {
    if routes != [] {
      var init, r := routes[..|routes| - 1], routes[|routes| - 1];
      LastBelow(init, s, p, key);
      if r.pattern != [] && r.pattern[0] == s {
        Extended(Below(init, s), r.(pattern := r.pattern[1..]));
        assert r.pattern == [s] + r.pattern[1..];
        assert r.pattern == [s] + p <==> r.pattern[1..] == p by { assert ([s] + p)[1..] == p; }
      } else {
        assert Below(routes, s) == Below(init, s) && ([s] + p)[0] == s;
      }
    }
  }

  lemma {:induction false} RouteHasHandler(routes: seq<Route>, r: Route)
    requires r in routes
    ensures LastHandler(routes, r.pattern, r.key).Some?
  {
    var init := routes[..|routes| - 1];
    if routes[|routes| - 1] != r {
      assert routes == init + [routes[|routes| - 1]];
      RouteHasHandler(init, r);
    }
  }

  lemma {:induction false} BelowMember(routes: seq<Route>, r: Route)
    requires r in routes && r.pattern != []
    ensures r.(pattern := r.pattern[1..]) in Below(routes, r.pattern[0])
    ensures FirstAt(routes, r.pattern[0]) < |routes|
  {
    var init := routes[..|routes| - 1];
    if routes[|routes| - 1] != r {
      assert routes == init + [routes[|routes| - 1]];
      BelowMember(init, r);
    }
  }

  // No route that begins with s serves the request.
  ghost predicate Unserved(routes: seq<Route>, segs: seq<string>, m: string, s: Segment)
  {
    forall r :: r in routes && r.pattern != [] && r.pattern[0] == s ==> !Serves(r.pattern, r.key, segs, m)
  }

  // Under p and x the request is served, and no route that begins like p is preferred.
  ghost predicate WinsBranch(routes: seq<Route>, segs: seq<string>, m: string, p: seq<Segment>, x: string, f: Found)
  {
    && p != [] && Serves(p, x, segs, m)
    && LastHandler(routes, p, x).Some? && f == Found(LastHandler(routes, p, x).value, Bindings(p, segs))
    && forall r :: r in routes && r.pattern != [] && r.pattern[0] == p[0] && Serves(r.pattern, r.key, segs, m) ==>
                     NotAfter(routes, m, p, x, r.pattern, r.key)
  }

  lemma ConsPattern(s: Segment, p: seq<Segment>, key: string, segs: seq<string>, m: string)
    requires segs != [] && (s == Static(segs[0]) || s.Param?)
    ensures Serves([s] + p, key, segs, m) <==> Serves(p, key, segs[1..], m)
    ensures Bindings([s] + p, segs) == if s.Param? then Bindings(p, segs[1..])[s.name := segs[0]]
      else Bindings(p, segs[1..])
  {
    var q := [s] + p;
    assert q[0] == s && q[1..] == p;
    assert EndsWild(q) == EndsWild(p);
  }

  // A win among the routes below s is a win for the branch of s.
  lemma LiftWin(routes: seq<Route>, s: Segment, segs: seq<string>, m: string, p: seq<Segment>, x: string, f: Found)
    requires segs != [] && (s == Static(segs[0]) || s.Param?)
    requires WinsWith(Below(routes, s), segs[1..], m, p, x, f)
    ensures WinsBranch(routes, segs, m, [s] + p, x, if s.Param? then f.(binds := f.binds[s.name := segs[0]]) else f)
  {
    hide Serves, Bindings, LastHandler, Below, KeyRank;
    ConsPattern(s, p, x, segs, m);
    LastBelow(routes, s, p, x);
    var q := [s] + p;
    assert q[0] == s && q[1..] == p;
    forall r | r in routes && r.pattern != [] && r.pattern[0] == s && Serves(r.pattern, r.key, segs, m)
      ensures NotAfter(routes, m, q, x, r.pattern, r.key)
    {
      var t := r.pattern[1..];
      assert r.pattern == [s] + t;
      ConsPattern(s, t, r.key, segs, m);
      BelowMember(routes, r);
      assert NotAfter(Below(routes, s), m, p, x, t, r.key);
    }
  }

  lemma LiftNone(routes: seq<Route>, s: Segment, segs: seq<string>, m: string)
    requires segs != [] && (s == Static(segs[0]) || s.Param?)
    requires Answer(Below(routes, s), segs[1..], m, None)
    ensures Unserved(routes, segs, m, s)
  {
    hide Serves, Below, Bindings;
    forall r | r in routes && r.pattern != [] && r.pattern[0] == s ensures !Serves(r.pattern, r.key, segs, m) {
      assert r.pattern == [s] + r.pattern[1..];
      ConsPattern(s, r.pattern[1..], r.key, segs, m);
      BelowMember(routes, r);
    }
  }

  lemma PickRank(handlers: map<string, Value>, keys: seq<string>, m: string, y: string)
    requires keys == WildKeys(m) || keys == ExactKeys(m)
    requires y in keys && y in handlers
    ensures Pick(handlers, keys).Some? && KeyRank(Pick(handlers, keys).value, m) <= KeyRank(y, m)
  {
    assert keys[1..][0] == "ALL" && keys[1..][1..][0] == "*";
    assert keys == ExactKeys(m) ==> keys[1..][1..][1..] == ["ANY"];
    var k := Pick(handlers, keys);
    assert k == if keys[0] in handlers then Some(m) else Pick(handlers, keys[1..]);
    assert Pick(handlers, keys[1..]) == if "ALL" in handlers then Some("ALL") else Pick(handlers, keys[1..][1..]);
    assert Pick(handlers, keys[1..][1..]) == if "*" in handlers then Some("*") else Pick(handlers, keys[1..][1..][1..]);
  }

  lemma WildMatches(p: seq<Segment>, segs: seq<string>, w: Segment)
    requires p != [] && p[0] == w && w.Wildcard?
    ensures Matches(p, segs) <==> p == [w]
    ensures EndsWild([w]) && Bindings([w], segs) == map[w.wild := Join(segs)]
  {
    assert |p| == 1 ==> p == [w];
  }

  lemma VisitWild(c: Node, routes: seq<Route>, segs: seq<string>, m: string)
    requires c.segment.Wildcard? && Represents(c, Below(routes, c.segment))
    ensures match Visit(c, segs, m, 2)
      case None => Unserved(routes, segs, m, c.segment)
      case Some(f) => WinsBranch(routes, segs, m, [c.segment], Pick(c.handlers, WildKeys(m)).value, f)
  {
    hide ChildrenOk, Below, Pick, Join, LastHandler, HandlersOf, Matches, Bindings;
    var s := c.segment;
    var k := Pick(c.handlers, WildKeys(m));
    forall r | r in routes && r.pattern != [] && r.pattern[0] == s && Serves(r.pattern, r.key, segs, m)
      ensures r.pattern == [s] && k.Some? && KeyRank(k.value, m) <= KeyRank(r.key, m)
    {
      WildMatches(r.pattern, segs, s);
      BelowMember(routes, r);
      assert r.pattern[1..] == [];
      RouteHasHandler(Below(routes, s), r.(pattern := []));
      HandlersAreLast(Below(routes, s), r.key);
      PickRank(c.handlers, WildKeys(m), m, r.key);
    }
    if k.Some? {
      WildMatches([s], segs, s);
      HandlersAreLast(Below(routes, s), k.value);
      LastBelow(routes, s, [], k.value);
      assert [s] + [] == [s];
    }
  }

  ghost predicate ChildrenRepresent(cs: seq<Node>, routes: seq<Route>)
  {
    ChildrenOk(cs, routes) && forall c :: c in cs ==> Represents(c, Below(routes, c.segment))
  }

  ghost predicate PassUnserved(cs: seq<Node>, n: nat, routes: seq<Route>, segs: seq<string>, m: string, pass: nat)
    requires n <= |cs|
  {
    forall j :: 0 <= j < n && Rank(cs[j].segment) == pass ==> Unserved(routes, segs, m, cs[j].segment)
  }

  lemma NotRoot(cs: seq<Node>, routes: seq<Route>, i: nat)
    requires ChildrenOk(cs, routes) && i < |cs|
    ensures cs[i].segment != Root
  {
    assert ChildOk(cs[i], routes);
  }

  // Whatever serves the request begins with a segment of at least this rank.
  ghost predicate FromRank(routes: seq<Route>, segs: seq<string>, m: string, pass: nat)
  {
    forall r :: r in routes && Serves(r.pattern, r.key, segs, m) ==> r.pattern != [] && Rank(r.pattern[0]) >= pass
  }

  lemma NothingBefore(cs: seq<Node>, routes: seq<Route>, segs: seq<string>, m: string, pass: nat)
    ensures PassUnserved(cs, 0, routes, segs, m, pass)
  {
  }

  // The first child that serves beats every route of its pass and of later passes.
  lemma BranchWins(cs: seq<Node>, at: nat, routes: seq<Route>, segs: seq<string>, m: string, p: seq<Segment>, x: string,
      f: Found)
    requires ChildrenRepresent(cs, routes) && at < |cs| && p != [] && p[0] == cs[at].segment
    requires PassUnserved(cs, at, routes, segs, m, Rank(p[0])) && WinsBranch(routes, segs, m, p, x, f)
    requires forall r :: r in routes && Serves(r.pattern, r.key, segs, m) ==>
      r.pattern != [] && Rank(r.pattern[0]) >= Rank(p[0])
    ensures WinsWith(routes, segs, m, p, x, f)
  {
    hide Serves, Represents, Bindings, LastHandler, KeyRank, Below;
    forall r | r in routes && Serves(r.pattern, r.key, segs, m) ensures NotAfter(routes, m, p, x, r.pattern, r.key) {
      var s := r.pattern[0];
      if s != p[0] && Rank(s) == Rank(p[0]) {
        BelowMember(routes, r);
        assert HasChild(cs, s);
        var j :| 0 <= j < |cs| && cs[j].segment == s;
        assert !Unserved(routes, segs, m, s);
        assert InOrder(cs[at], cs[j], routes);
      }
    }
  }

  lemma PassClosed(cs: seq<Node>, routes: seq<Route>, segs: seq<string>, m: string, pass: nat)
    requires ChildrenOk(cs, routes) && PassUnserved(cs, |cs|, routes, segs, m, pass)
    ensures forall r :: r in routes && Serves(r.pattern, r.key, segs, m) ==>
      r.pattern == [] || Rank(r.pattern[0]) != pass
  {
    hide Serves;
    forall r | r in routes && Serves(r.pattern, r.key, segs, m) && r.pattern != [] ensures Rank(r.pattern[0]) != pass {
      BelowMember(routes, r);
      assert HasChild(cs, r.pattern[0]);
      var j :| 0 <= j < |cs| && cs[j].segment == r.pattern[0];
      assert Rank(cs[j].segment) == pass ==> Unserved(routes, segs, m, cs[j].segment);
    }
  }

  lemma RepresentsChildren(node: Node, routes: seq<Route>)
    requires Represents(node, routes)
    ensures ChildrenRepresent(node.children, routes)
  {
    hide ChildrenOk, Below, HandlersOf;
  }

  lemma NoRootMatch(p: seq<Segment>, segs: seq<string>)
    requires Matches(p, segs) && p != []
    ensures Rank(p[0]) <= 2 && (segs == [] ==> Rank(p[0]) == 2)
  {
  }

  // Where passes begin: the empty pattern serves only the empty request, and a wildcard child.
  lemma FirstRank(routes: seq<Route>, segs: seq<string>, m: string)
    ensures segs != [] ==> FromRank(routes, segs, m, 0)
    ensures segs == [] && (forall r :: r in routes && Serves(r.pattern, r.key, [], m) ==> r.pattern != []) ==>
      FromRank(routes, segs, m, 2)
    ensures FromRank(routes, segs, m, 3) ==> Answer(routes, segs, m, None)
  {
    hide KeysFor;
    forall r | r in routes && Serves(r.pattern, r.key, segs, m) && r.pattern != []
      ensures Rank(r.pattern[0]) <= 2 && (segs == [] ==> Rank(r.pattern[0]) == 2)
    {
      NoRootMatch(r.pattern, segs);
    }
  }

  lemma ExactWins(node: Node, routes: seq<Route>, m: string)
    requires Represents(node, routes)
    ensures Pick(node.handlers, ExactKeys(m)).Some? ==>
      var k := Pick(node.handlers, ExactKeys(m)).value;
      WinsWith(routes, [], m, [], k, Found(node.handlers[k], map[]))
    ensures Pick(node.handlers, ExactKeys(m)).None? ==> forall r :: r in routes && Serves(r.pattern, r.key, [], m) ==>
      r.pattern != []
  {
    hide ChildrenOk, Below, Pick, LastHandler, HandlersOf;
    var k := Pick(node.handlers, ExactKeys(m));
    forall r | r in routes && r.pattern == [] && r.key in ExactKeys(m)
      ensures k.Some? && KeyRank(k.value, m) <= KeyRank(r.key, m) {
      RouteHasHandler(routes, r);
      HandlersAreLast(routes, r.key);
      PickRank(node.handlers, ExactKeys(m), m, r.key);
    }
    if k.Some? {
      HandlersAreLast(routes, k.value);
    }
  }

  lemma AnswerWinner(routes: seq<Route>, segs: seq<string>, m: string, f: Found) returns (p: seq<Segment>, x: string)
    requires Answer(routes, segs, m, Some(f))
    ensures WinsWith(routes, segs, m, p, x, f)
  {
    hide WinsWith;
    p, x :| WinsWith(routes, segs, m, p, x, f);
  }

  // What one child's visit says about the routes that begin with its segment.
  lemma {:induction false} VisitAnswers(c: Node, routes: seq<Route>, segs: seq<string>, m: string)
    returns (p: seq<Segment>, x: string)
    requires c.segment != Root && Represents(c, Below(routes, c.segment)) && (segs == [] ==> c.segment.Wildcard?)
    ensures match Visit(c, segs, m, Rank(c.segment))
      case None => Unserved(routes, segs, m, c.segment)
      case Some(f) => p != [] && p[0] == c.segment && WinsBranch(routes, segs, m, p, x, f)
    decreases |segs|, 0
  {
    hide Below, Answer, WinsBranch, WinsWith, Represents;
    var s := c.segment;
    p, x := [], "";
    if s.Wildcard? {
      VisitWild(c, routes, segs, m);
      p := [s];
      x := if Pick(c.handlers, WildKeys(m)).Some? then Pick(c.handlers, WildKeys(m)).value else "";
    } else if s.Static? && s.text != segs[0] {
    } else {
      SearchAnswers(c, Below(routes, s), segs[1..], m);
      var r := Search(c, segs[1..], m);
      if r.Some? {
        p, x := AnswerWinner(Below(routes, s), segs[1..], m, r.value);
        LiftWin(routes, s, segs, m, p, x, r.value);
        p := [s] + p;
      } else {
        LiftNone(routes, s, segs, m);
      }
    }
  }

  // One pass from the i-th child on: nothing is served in it, or the first child that serves wins
  // against every later segment.
  lemma {:induction false} PassAnswers(cs: seq<Node>, i: nat, routes: seq<Route>, segs: seq<string>, m: string,
      pass: nat)
    returns (p: seq<Segment>, x: string, at: nat)
    requires i <= |cs| && pass <= 2 && (segs == [] ==> pass == 2) && ChildrenRepresent(cs, routes)
    requires PassUnserved(cs, i, routes, segs, m, pass)
    ensures match VisitAll(cs[i..], segs, m, pass)
      case None => PassUnserved(cs, |cs|, routes, segs, m, pass)
      case Some(f) =>
        && at < |cs| && PassUnserved(cs, at, routes, segs, m, pass) && p != [] && p[0] == cs[at].segment
        && Rank(p[0]) == pass && WinsBranch(routes, segs, m, p, x, f)
    decreases |segs|, 1, |cs| - i
  {
    hide Unserved, WinsBranch, ChildrenOk, Represents;
    p, x, at := [], "", 0;
    if i < |cs| {
      var c := cs[i];
      assert c in cs && cs[i..][0] == c && cs[i..][1..] == cs[i + 1..];
      NotRoot(cs, routes, i);
      if Rank(c.segment) == pass {
        p, x := VisitAnswers(c, routes, segs, m);
        at := i;
      }
      if Visit(c, segs, m, pass).None? {
        p, x, at := PassAnswers(cs, i + 1, routes, segs, m, pass);
      }
    }
  }

  lemma {:induction false} PassDecides(cs: seq<Node>, routes: seq<Route>, segs: seq<string>, m: string, pass: nat)
    requires ChildrenRepresent(cs, routes) && pass <= 2 && (segs == [] ==> pass == 2)
    requires FromRank(routes, segs, m, pass)
    ensures match VisitAll(cs, segs, m, pass)
      case None => FromRank(routes, segs, m, pass + 1)
      case Some(f) => Answer(routes, segs, m, Some(f))
    decreases |segs|, 1, |cs| + 1
  {
    hide WinsWith, PassUnserved, ChildrenOk, WinsBranch, Serves, VisitAll, Represents;
    NothingBefore(cs, routes, segs, m, pass);
    assert cs[0..] == cs;
    var p, x, at := PassAnswers(cs, 0, routes, segs, m, pass);
    if VisitAll(cs, segs, m, pass).Some? {
      BranchWins(cs, at, routes, segs, m, p, x, VisitAll(cs, segs, m, pass).value);
    } else {
      PassClosed(cs, routes, segs, m, pass);
    }
  }

  // The depth-first search of the tree gives the answer of the flat list of routes.
  lemma {:induction false} SearchAnswers(node: Node, routes: seq<Route>, segs: seq<string>, m: string)
    requires Represents(node, routes)
    ensures Answer(routes, segs, m, Search(node, segs, m))
    decreases |segs|, 2
  {
    hide WinsWith, FromRank, ChildrenRepresent, Pick, Serves, VisitAll, Represents;
    RepresentsChildren(node, routes);
    FirstRank(routes, segs, m);
    if segs == [] {
      ExactWins(node, routes, m);
      if Pick(node.handlers, ExactKeys(m)).None? {
        PassDecides(node.children, routes, segs, m, 2);
      }
    } else {
      PassDecides(node.children, routes, segs, m, 0);
      if VisitAll(node.children, segs, m, 0).None? {
        PassDecides(node.children, routes, segs, m, 1);
        if VisitAll(node.children, segs, m, 1).None? {
          PassDecides(node.children, routes, segs, m, 2);
        }
      }
    }
  }

  // ---------------------------------------------------------------- the router

  // The node that a path of child positions leads to, and the tree with another node there.
  predicate LeadsTo(node: Node, path: seq<nat>)
    decreases |path|
  {
    path != [] ==> path[0] < |node.children| && LeadsTo(node.children[path[0]], path[1..])
  }

  function At(node: Node, path: seq<nat>): Node
    requires LeadsTo(node, path)
    decreases |path|
  {
    if path == [] then node else At(node.children[path[0]], path[1..])
  }

  function With(node: Node, path: seq<nat>, n: Node): Node
    requires LeadsTo(node, path)
    decreases |path|
  {
    if path == [] then n
    else node.(children := node.children[path[0] := With(node.children[path[0]], path[1..], n)])
  }

  // Writing below what was written at a path is writing there at once.
  lemma {:induction false} WithDeeper(node: Node, path: seq<nat>, n: Node, k: nat, c: Node)
    requires LeadsTo(node, path) && k < |n.children|
    ensures LeadsTo(With(node, path, n), path + [k])
    ensures At(With(node, path, n), path + [k]) == n.children[k]
    ensures With(With(node, path, n), path + [k], c) == With(node, path, n.(children := n.children[k := c]))
    decreases |path|
  {
    var longer := path + [k];
    if path == [] {
      assert longer[1..] == [];
    } else {
      assert longer[0] == path[0] && longer[1..] == path[1..] + [k];
      WithDeeper(node.children[path[0]], path[1..], n, k, c);
    }
  }

  lemma {:induction false} WithSelf(node: Node, path: seq<nat>)
    requires LeadsTo(node, path)
    ensures With(node, path, At(node, path)) == node
    decreases |path|
  {
    if path != [] {
      WithSelf(node.children[path[0]], path[1..]);
    }
  }

  lemma {:induction false} SegmentsFull(s: string, cur: string)
    requires '/' !in cur
    ensures forall g :: g in Segments(s, cur) ==> g != "" && '/' !in g
    decreases |s|
  {
    if s != "" {
      if s[0] == '/' {
        SegmentsFull(s[1..], "");
      } else {
        SegmentsFull(s[1..], cur + [s[0]]);
      }
    }
  }

  lemma PathSegments(path: string)
    ensures forall g :: g in SplitPath(path) ==> g != "" && '/' !in g
  {
    SegmentsFull(BeforeQuery(Trim(path)), "");
  }

  function RouteOf(method': string, path: string, handler: Value): (r: Route)
    ensures Root !in r.pattern
  {
    PathSegments(path);
    Route(PatternOf(SplitPath(path)), MethodKey(method'), handler)
  }

  ghost predicate Matched(f: Option<Found>, ok: bool, params: map<string, string>, params': map<string, string>,
      handler: Option<Value>, handler': Option<Value>)
  {
    match f
    case None => !ok && params' == params && handler' == handler
    case Some(g) => ok && params' == params + g.binds && handler' == Some(g.handler)
  }

  lemma EmptyLeft(params: map<string, string>, sub: map<string, string>, binds: map<string, string>)
    requires sub == map[] + binds
    ensures params + sub == params + binds
  {
  }

  lemma PickWild(handlers: map<string, Value>, m: string)
    ensures Pick(handlers, WildKeys(m)) ==
      if m in handlers then Some(m) else if "ALL" in handlers then Some("ALL") else if "*" in handlers then Some("*")
        else None
  {
    var keys := WildKeys(m);
    assert keys[1..] == ["ALL", "*"] && keys[1..][1..] == ["*"] && keys[1..][1..][1..] == [];
    assert Pick(handlers, keys[1..][1..]) == if "*" in handlers then Some("*") else None;
  }

  // The handler of a wildcard child.
  method WildHandler(handlers: map<string, Value>, m: string) returns (h: Option<Value>)
    ensures h == match Pick(handlers, WildKeys(m)) case Some(k) => Some(handlers[k]) case None => None
  {
    PickWild(handlers, m);
    h := if m in handlers then Some(handlers[m]) else if "ALL" in handlers then Some(handlers["ALL"])
      else if "*" in handlers then Some(handlers["*"]) else None;
  }

  lemma PickExact(handlers: map<string, Value>, m: string)
    ensures Pick(handlers, ExactKeys(m)) ==
      if m in handlers then Some(m) else if "ALL" in handlers then Some("ALL") else if "*" in handlers then Some("*")
      else if "ANY" in handlers then Some("ANY") else None
  {
    var keys := ExactKeys(m);
    var k1, k2, k3 := ["ALL", "*", "ANY"], ["*", "ANY"], ["ANY"];
    assert keys[1..] == k1 && k1[1..] == k2 && k2[1..] == k3 && k3[1..] == [];
    assert Pick(handlers, k3) == if "ANY" in handlers then Some("ANY") else None;
    assert Pick(handlers, k2) == if "*" in handlers then Some("*") else Pick(handlers, k3);
    assert Pick(handlers, k1) == if "ALL" in handlers then Some("ALL") else Pick(handlers, k2);
  }

  method ExactHandler(handlers: map<string, Value>, m: string) returns (h: Option<Value>)
    ensures h == match Pick(handlers, ExactKeys(m)) case Some(k) => Some(handlers[k]) case None => None
  {
    PickExact(handlers, m);
    h := if m in handlers then Some(handlers[m]) else if "ALL" in handlers then Some(handlers["ALL"])
      else if "*" in handlers then Some(handlers["*"]) else if "ANY" in handlers then Some(handlers["ANY"]) else None;
  }

  // match_node reports the outcome, the parameters and the handler that get_handler does.
  method MatchNode(node: Node, segments: seq<string>, segIdx: nat, m: string, params: map<string, string>,
      handler: Option<Value>)
    returns (ok: bool, params': map<string, string>, handler': Option<Value>)
    requires segIdx <= |segments|
    ensures Matched(Search(node, segments[segIdx..], m), ok, params, params', handler, handler')
    decreases |segments| - segIdx, 1
  {
    hide Pick, Join;
    ok, params', handler' := false, params, handler;
    if segIdx == |segments| {
      var h := ExactHandler(node.handlers, m);
      if h.Some? {
        assert params + map[] == params;
        return true, params, h;
      }
    } else {
      ok, params', handler' := MatchNodePass(node, segments, segIdx, m, params, handler, 0);
      if ok {
        return;
      }
      ok, params', handler' := MatchNodePass(node, segments, segIdx, m, params, handler, 1);
      if ok {
        return;
      }
    }
    ok, params', handler' := MatchNodePass(node, segments, segIdx, m, params, handler, 2);
  }

  // The handler a search found, and the parameters with its bindings.
  ghost predicate Got(f: Option<Found>, h: Option<Value>, params: map<string, string>, params': map<string, string>)
  {
    match f
    case None => h == None && params' == params
    case Some(g) => h == Some(g.handler) && params' == params + g.binds
  }

  method GetHandler(node: Node, segments: seq<string>, segIdx: nat, m: string, params: map<string, string>)
    returns (h: Option<Value>, params': map<string, string>)
    requires segIdx <= |segments|
    ensures Got(Search(node, segments[segIdx..], m), h, params, params')
    decreases |segments| - segIdx, 1
  {
    hide Pick, Join;
    params' := params;
    ghost var segs := segments[segIdx..];
    if segIdx == |segments| {
      h := ExactHandler(node.handlers, m);
      if h.Some? {
        assert params + map[] == params;
        return;
      }
    } else {
      h, params' := GetHandlerPass(node, segments, segIdx, m, params, 0);
      if h.Some? {
        return;
      }
      h, params' := GetHandlerPass(node, segments, segIdx, m, params, 1);
      if h.Some? {
        return;
      }
    }
    h, params' := GetHandlerPass(node, segments, segIdx, m, params, 2);
  }

  class RadixRouter {
    var root: Node
    ghost var routes: seq<Route>  // in the order of insertion

    ghost predicate Valid()
      reads this
    {
      root.segment == Root && Represents(root, routes)
    }

    constructor ()
      ensures Valid() && routes == []
    {
      root := NewNode(Root);
      routes := [];
      EmptyRepresents(Root);
    }

    method Clear()
      modifies this
      ensures Valid() && routes == []
    {
      root := NewNode(Root);
      routes := [];
      EmptyRepresents(Root);
    }

    // The cursor walks down the tree, and adds a child where the pattern has none.
    method Insert(method': string, path: string, handler: Value)
      requires Valid()
      modifies this
      ensures Valid() && routes == old(routes) + [RouteOf(method', path, handler)]
    {
      hide Represents, WithChild, Trim, SplitPath, MethodKey, SegmentOf;
      PathSegments(path);
      var key := MethodKey(method');
      var segments := SplitPath(path);
      ghost var pattern := PatternOf(segments);
      InsertedRepresents(root, routes, pattern, key, handler);
      ghost var goal := Inserted(root, pattern, key, handler);
      var cursor: seq<nat> := [];
      for i := 0 to |segments|
        invariant LeadsTo(root, cursor) && routes == old(routes)
        invariant With(root, cursor, Inserted(At(root, cursor), PatternOf(segments[i..]), key, handler)) == goal
      {
        var s := SegmentOf(segments[i]);
        var current := At(root, cursor);
        ghost var rest := PatternOf(segments[i..]);
        assert segments[i..][0] == segments[i] && segments[i..][1..] == segments[i + 1..];
        assert rest[0] == s && rest[1..] == PatternOf(segments[i + 1..]);
        WithChildHas(current.children, s);
        var cs := WithChild(current.children, s);
        var idx := Position(cs, s);
        ghost var n := current.(children := cs);
        WithDeeper(root, cursor, n, idx, Inserted(cs[idx], rest[1..], key, handler));
        root := With(root, cursor, current.(children := cs));
        cursor := cursor + [idx];
      }
      var current := At(root, cursor);
      root := With(root, cursor, current.(handlers := current.handlers[key := handler]));
      assert segments[|segments|..] == [];
      routes := routes + [Route(pattern, key, handler)];
    }

    // What is found is the answer of the list of the routes inserted so far.
    method Find(method': string, path: string) returns (r: Option<Found>)
      requires Valid()
      ensures Answer(routes, SplitPath(path), MethodKey(method'), r)
    {
      hide Answer, Represents, SplitPath, MethodKey, Search;
      var m := MethodKey(method');
      var segments := SplitPath(path);
      SearchAnswers(root, routes, segments, m);
      assert segments[0..] == segments;
      var ok, params, _ := MatchNode(root, segments, 0, m, map[], None);
      r := None;
      if ok {
        var h, binds := GetHandler(root, segments, 0, m, params);
        if h.Some? {
          var f := Search(root, segments, m).value;
          assert params == f.binds by { assert map[] + f.binds == f.binds; }
          assert binds == f.binds by { assert f.binds + f.binds == f.binds; }
          return Some(Found(h.value, binds));
        }
      }
    }
  }

  // One of the three loops over the children.
  method GetHandlerPass(node: Node, segments: seq<string>, segIdx: nat, m: string, params: map<string, string>,
      pass: nat)
    returns (h: Option<Value>, params': map<string, string>)
    requires segIdx <= |segments| && pass <= 2 && (segIdx == |segments| ==> pass == 2)
    ensures Got(VisitAll(node.children, segments[segIdx..], m, pass), h, params, params')
    decreases |segments| - segIdx, 0
  {
    hide Pick, Join, Search;
    var segs := segments[segIdx..];
    h, params' := None, params;
    assert node.children[0..] == node.children;
    for i := 0 to |node.children|
      invariant params' == params && h == None
      invariant VisitAll(node.children, segs, m, pass) == VisitAll(node.children[i..], segs, m, pass)
    {
      var child := node.children[i];
      assert node.children[i..][0] == child && node.children[i..][1..] == node.children[i + 1..];
      match child.segment {
        case Static(t) =>
          if pass == 0 && t == segments[segIdx] {
            assert segs[1..] == segments[segIdx + 1..];
            h, params' := GetHandler(child, segments, segIdx + 1, m, params);
          }
        case Param(n) =>
          if pass == 1 {
            assert segs[1..] == segments[segIdx + 1..];
            h, params' := GetHandler(child, segments, segIdx + 1, m, params);
            if h.Some? {
              params' := params'[n := segments[segIdx]];
            }
          }
        case Wildcard(n) =>
          if pass == 2 {
            h := WildHandler(child.handlers, m);
            if h.Some? {
              params' := params[n := Join(segs)];
            }
          }
        case Root =>
      }
      if h.Some? {
        return;
      }
    }
  }

  method MatchNodePass(node: Node, segments: seq<string>, segIdx: nat, m: string, params: map<string, string>,
      handler: Option<Value>, pass: nat)
    returns (ok: bool, params': map<string, string>, handler': Option<Value>)
    requires segIdx <= |segments| && pass <= 2 && (segIdx == |segments| ==> pass == 2)
    ensures Matched(VisitAll(node.children, segments[segIdx..], m, pass), ok, params, params', handler, handler')
    decreases |segments| - segIdx, 0
  {
    hide Pick, Join, Search;
    var segs := segments[segIdx..];
    ok, params', handler' := false, params, handler;
    assert node.children[0..] == node.children;
    for i := 0 to |node.children|
      invariant !ok && params' == params && handler' == handler
      invariant VisitAll(node.children, segs, m, pass) == VisitAll(node.children[i..], segs, m, pass)
    {
      var child := node.children[i];
      assert node.children[i..][0] == child && node.children[i..][1..] == node.children[i + 1..];
      match child.segment {
        case Static(t) =>
          if pass == 0 && t == segments[segIdx] {
            assert segs[1..] == segments[segIdx + 1..];
            ok, params', handler' := MatchNode(child, segments, segIdx + 1, m, params, handler);
          }
        case Param(n) =>
          if pass == 1 {
            assert segs[1..] == segments[segIdx + 1..];
            var sub: map<string, string>;
            ok, sub, handler' := MatchNode(child, segments, segIdx + 1, m, map[], handler);
            if ok {
              params' := (params + sub)[n := segments[segIdx]];
              EmptyLeft(params, sub, Search(child, segs[1..], m).value.binds);
            }
          }
        case Wildcard(n) =>
          if pass == 2 {
            var h := WildHandler(child.handlers, m);
            if h.Some? {
              ok, params', handler' := true, params[n := Join(segs)], h;
            }
          }
        case Root =>
      }
      if ok {
        return;
      }
    }
  }

  // ---------------------------------------------------------------- all handlers

  // The handlers in the tree.
  ghost predicate Holds(node: Node, h: Value)
    decreases node
  {
    h in node.handlers.Values || exists c :: c in node.children && Holds(c, h)
  }

  lemma ChildFor(cs: seq<Node>, routes: seq<Route>, s: Segment) returns (c: Node)
    requires ChildrenOk(cs, routes) && FirstAt(routes, s) < |routes|
    ensures c in cs && c.segment == s
  {
    assert HasChild(cs, s);
    var i :| 0 <= i < |cs| && cs[i].segment == s;
    c := cs[i];
  }

  // They are the handlers the list still has: those that no later route of the same pattern and
  // key replaced.
  lemma {:induction false} HoldsRegistered(node: Node, routes: seq<Route>, h: Value)
    requires Represents(node, routes)
    ensures Holds(node, h) <==> exists p, x :: LastHandler(routes, p, x) == Some(h)
    decreases node
  {
    hide ChildrenOk, Below, HandlersOf, LastHandler;
    if h in node.handlers.Values {
      var x :| x in node.handlers && node.handlers[x] == h;
      HandlersAreLast(routes, x);
      assert LastHandler(routes, [], x) == Some(h);
    }
    if c :| c in node.children && Holds(c, h) {
      HoldsRegistered(c, Below(routes, c.segment), h);
      var p, x :| LastHandler(Below(routes, c.segment), p, x) == Some(h);
      LastBelow(routes, c.segment, p, x);
      assert LastHandler(routes, [c.segment] + p, x) == Some(h);
    }
    if p, x :| LastHandler(routes, p, x) == Some(h) {
      if p == [] {
        HandlersAreLast(routes, x);
        assert node.handlers[x] == h;
      } else {
        LastHandlerRoute(routes, p, x);
        BelowMember(routes, Route(p, x, h));
        var c := ChildFor(node.children, routes, p[0]);
        assert p == [p[0]] + p[1..];
        LastBelow(routes, p[0], p[1..], x);
        HoldsRegistered(c, Below(routes, c.segment), h);
      }
    }
  }

  method CollectHandlers(node: Node, out: seq<Value>) returns (out': seq<Value>)
    ensures forall h :: h in out' <==> h in out || Holds(node, h)
    decreases node
  {
    out' := out;
    var keys := node.handlers.Keys;
    while keys != {}
      invariant keys <= node.handlers.Keys
      invariant forall h :: h in out' <==>
        h in out || exists k :: k in node.handlers && k !in keys && node.handlers[k] == h
      decreases |keys|
    {
      var k :| k in keys;
      ghost var before := out';
      out' := out' + [node.handlers[k]];
      keys := keys - {k};
    }
    assert forall h :: h in out' <==> h in out || h in node.handlers.Values;
    for i := 0 to |node.children|
      invariant forall h :: h in out' <==>
        h in out || h in node.handlers.Values || exists j :: 0 <= j < i && Holds(node.children[j], h)
    {
      out' := CollectHandlers(node.children[i], out');
    }
  }

  lemma WinnerHandler(routes: seq<Route>, segs: seq<string>, m: string, p: seq<Segment>, x: string, f: Found)
    requires WinsWith(routes, segs, m, p, x, f)
    ensures LastHandler(routes, p, x) == Some(f.handler)
  {
  }

  // What a request finds is among the collected handlers.
  lemma FoundIsHeld(node: Node, routes: seq<Route>, segs: seq<string>, m: string)
    requires Represents(node, routes) && Search(node, segs, m).Some?
    ensures Holds(node, Search(node, segs, m).value.handler)
  {
    hide Wins, Represents, Search, Bindings, Holds;
    SearchAnswers(node, routes, segs, m);
    var f := Search(node, segs, m).value;
    var p, x := AnswerWinner(routes, segs, m, f);
    WinnerHandler(routes, segs, m, p, x, f);
    HoldsRegistered(node, routes, f.handler);
  }
}
