/** Path normalisation and joining (crates/eronom-vm/src/std_path.rs:6-62). */
module PathNames {
  predicate IsSep(c: char) { c == '/' || c == '\\' }

  // The stretches between separators; cur is the stretch begun.
  function Split(s: string, cur: string): (r: seq<string>)
    ensures r != []
    decreases |s|
  {
    if s == "" then [cur]
    else if IsSep(s[0]) then [cur] + Split(s[1..], "")
    else Split(s[1..], cur + [s[0]])
  }

  function Join(parts: seq<string>): string
    decreases |parts|
  {
    if parts == [] then "" else if |parts| == 1 then parts[0] else parts[0] + "/" + Join(parts[1..])
  }

  // What one segment does to the parts collected so far.
  function Push(isAbs: bool, parts: seq<string>, seg: string): seq<string>
  {
    if seg == "" || seg == "." then parts
    else if seg == ".." then
      if parts != [] && parts[|parts| - 1] != ".." then parts[..|parts| - 1]
      else if !isAbs then parts + [".."]
      else parts
    else parts + [seg]
  }

  function PushAll(isAbs: bool, parts: seq<string>, segs: seq<string>): seq<string>
    decreases |segs|
  {
    if segs == [] then parts else PushAll(isAbs, Push(isAbs, parts, segs[0]), segs[1..])
  }

  predicate IsAbs(s: string) { s != "" && IsSep(s[0]) }

  // The parts a path comes down to.
  function Parts(s: string): seq<string>
  {
    PushAll(IsAbs(s), [], Split(s, ""))
  }

  function Render(isAbs: bool, parts: seq<string>): string
  {
    if isAbs then "/" + Join(parts) else if parts == [] then "." else Join(parts)
  }

  function Normalized(s: string): string
  {
    if s == "" then "." else Render(IsAbs(s), Parts(s))
  }

  method NormalizePath(path: string) returns (r: string)
    ensures r == Normalized(path)
  {
    if path == "" {
      return ".";
    }
    var isAbs := IsSep(path[0]);
    var parts: seq<string> := [];
    var segments := Split(path, "");
    assert segments[0..] == segments;
    for i := 0 to |segments|
      invariant PushAll(isAbs, parts, segments[i..]) == Parts(path)
    {
      var segment := segments[i];
      assert segments[i..][0] == segment && segments[i..][1..] == segments[i + 1..];
      if segment == "" || segment == "." {
        continue;
      }
      if segment == ".." {
        if parts != [] && parts[|parts| - 1] != ".." {
          parts := parts[..|parts| - 1];
        } else if !isAbs {
          parts := parts + [".."];
        }
      } else {
        parts := parts + [segment];
      }
    }
    r := if isAbs then "/" + Join(parts) else if parts == [] then "." else Join(parts);
  }

  // ---------------------------------------------------------------- the shape of a normal path

  predicate Plain(seg: string)
  {
    seg != "" && seg != "." && forall i :: 0 <= i < |seg| ==> !IsSep(seg[i])
  }

  // No empty or "." part and no separator inside one; ".." only leads a relative path.
  predicate Normal(isAbs: bool, parts: seq<string>)
  {
    && (forall i :: 0 <= i < |parts| ==> Plain(parts[i]))
    && (forall i, j :: 0 <= i < j < |parts| && parts[j] == ".." ==> parts[i] == "..")
    && (isAbs ==> ".." !in parts)
  }

  lemma {:induction false} SplitPlain(s: string, cur: string)
    requires forall i :: 0 <= i < |cur| ==> !IsSep(cur[i])
    ensures forall seg :: seg in Split(s, cur) ==> forall i :: 0 <= i < |seg| ==> !IsSep(seg[i])
    decreases |s|
  {
    if s != "" {
      if IsSep(s[0]) {
        SplitPlain(s[1..], "");
      } else {
        SplitPlain(s[1..], cur + [s[0]]);
      }
    }
  }

  lemma PushNormal(isAbs: bool, parts: seq<string>, seg: string)
    requires Normal(isAbs, parts) && forall i :: 0 <= i < |seg| ==> !IsSep(seg[i])
    ensures Normal(isAbs, Push(isAbs, parts, seg))
  {
    var r := Push(isAbs, parts, seg);
    if r == parts + [seg] && seg == ".." {
      forall i | 0 <= i < |parts| ensures parts[i] == ".." {
        if i < |parts| - 1 {
          assert parts[|parts| - 1] == "..";
        }
      }
    }
  }

  lemma {:induction false} PushAllNormal(isAbs: bool, parts: seq<string>, segs: seq<string>)
    requires Normal(isAbs, parts) && forall seg :: seg in segs ==> forall i :: 0 <= i < |seg| ==> !IsSep(seg[i])
    ensures Normal(isAbs, PushAll(isAbs, parts, segs))
    decreases |segs|
  {
    hide Normal, Push;
    if segs != [] {
      assert segs[0] in segs;
      PushNormal(isAbs, parts, segs[0]);
      PushAllNormal(isAbs, Push(isAbs, parts, segs[0]), segs[1..]);
    }
  }

  lemma PartsNormal(s: string)
    ensures Normal(IsAbs(s), Parts(s))
  {
    SplitPlain(s, "");
    PushAllNormal(IsAbs(s), [], Split(s, ""));
  }

  // ---------------------------------------------------------------- reading a normal path back

  lemma {:induction false} SplitSegment(seg: string, rest: string, cur: string)
    requires forall i :: 0 <= i < |seg| ==> !IsSep(seg[i])
    ensures Split(seg + rest, cur) == Split(rest, cur + seg)
    decreases |seg|
  {
    if seg == "" {
      assert seg + rest == rest && cur + seg == cur;
    } else {
      assert (seg + rest)[0] == seg[0] && (seg + rest)[1..] == seg[1..] + rest;
      SplitSegment(seg[1..], rest, cur + [seg[0]]);
      assert cur + [seg[0]] + seg[1..] == cur + seg;
    }
  }

  lemma {:induction false} SplitJoined(parts: seq<string>)
    requires parts != [] && forall i :: 0 <= i < |parts| ==> Plain(parts[i])
    ensures Split(Join(parts), "") == parts
    decreases |parts|
  {
    var p := parts[0];
    if |parts| == 1 {
      SplitSegment(p, "", "");
      assert p + "" == p && "" + p == p && parts == [p];
    } else {
      var more := "/" + Join(parts[1..]);
      assert Join(parts) == p + more;
      SplitSegment(p, more, "");
      assert "" + p == p && more[0] == '/' && more[1..] == Join(parts[1..]);
      SplitJoined(parts[1..]);
      assert parts == [p] + parts[1..];
    }
  }

  // Pushing the parts of a normal path collects them.
  lemma {:induction false} PushAllSame(isAbs: bool, done: seq<string>, parts: seq<string>)
    requires Normal(isAbs, done + parts)
    ensures PushAll(isAbs, done, parts) == done + parts
    decreases |parts|
  {
    if parts == [] {
      assert done + parts == done;
    } else {
      var p, all := parts[0], done + parts;
      assert all[|done|] == p && Plain(p);
      if p == ".." && done != [] {
        assert all[|done| - 1] == "..";
      }
      if isAbs {
        assert p in all;
      }
      assert Push(isAbs, done, p) == done + [p];
      assert done + [p] + parts[1..] == all;
      PushAllSame(isAbs, done + [p], parts[1..]);
    }
  }

  lemma {:induction false} PushAllAppend(isAbs: bool, parts: seq<string>, a: seq<string>, b: seq<string>)
    ensures PushAll(isAbs, parts, a + b) == PushAll(isAbs, PushAll(isAbs, parts, a), b)
    decreases |a|
  {
    hide Push;
    if a == [] {
      assert a + b == b;
    } else {
      assert (a + b)[0] == a[0] && (a + b)[1..] == a[1..] + b;
      PushAllAppend(isAbs, Push(isAbs, parts, a[0]), a[1..], b);
    }
  }

  lemma RenderStarts(isAbs: bool, parts: seq<string>)
    requires Normal(isAbs, parts)
    ensures var s := Render(isAbs, parts); s != "" && IsAbs(s) == isAbs
  {
    if parts != [] {
      assert Plain(parts[0]);
      assert Join(parts)[0] == parts[0][0];
    }
  }

  lemma PushEmpty(isAbs: bool, segs: seq<string>)
    ensures PushAll(isAbs, [], [""] + segs) == PushAll(isAbs, [], segs)
  {
    assert ([""] + segs)[1..] == segs;
  }

  lemma EmptyRendered(isAbs: bool)
    ensures Parts(Render(isAbs, [])) == []
  {
    if isAbs {
      assert Render(isAbs, []) == "/" && "/"[1..] == "";
      assert Split("/", "") == [""] + [""];
      assert ([""] + [""])[1..] == [""];
    } else {
      assert Split(".", "") == ["."] by { assert "."[1..] == "" && "" + ['.'] == "."; }
    }
    assert [""][1..] == [] && ["."][1..] == [];
  }

  lemma PlainParts(isAbs: bool, parts: seq<string>)
    requires Normal(isAbs, parts)
    ensures forall i :: 0 <= i < |parts| ==> Plain(parts[i])
  {
  }

  // A rendered normal path has the same root and the same parts.
  lemma RenderedParts(isAbs: bool, parts: seq<string>)
    requires Normal(isAbs, parts)
    ensures var s := Render(isAbs, parts); s != "" && IsAbs(s) == isAbs && Parts(s) == parts
  {
    hide Normal, Join;
    var s := Render(isAbs, parts);
    RenderStarts(isAbs, parts);
    assert [] + parts == parts;
    PushAllSame(isAbs, [], parts);
    if isAbs {
      assert s[0] == '/' && s[1..] == Join(parts);
      assert Split(s, "") == [""] + Split(Join(parts), "");
      PushEmpty(isAbs, Split(Join(parts), ""));
    }
    if parts == [] {
      EmptyRendered(isAbs);
    } else {
      PlainParts(isAbs, parts);
      SplitJoined(parts);
    }
  }

  // ---------------------------------------------------------------- the results

  lemma NormalizedParts(s: string)
    requires s != ""
    ensures var n := Normalized(s); n != "" && IsAbs(n) == IsAbs(s) && Parts(n) == Parts(s)
  {
    PartsNormal(s);
    RenderedParts(IsAbs(s), Parts(s));
  }

  lemma RenderDot()
    ensures Render(false, []) == "." && !IsAbs(".") && Normalized("") == "."
  {
  }

  // Normalising twice is normalising once.
  lemma Idempotent(s: string)
    ensures Normalized(Normalized(s)) == Normalized(s)
  {
    hide Parts, Render;
    if s == "" {
      EmptyRendered(false);
      RenderDot();
    } else {
      NormalizedParts(s);
    }
  }

  lemma {:induction false} SplitAt(a: string, b: string, cur: string)
    ensures Split(a + "/" + b, cur) == Split(a, cur) + Split(b, "")
    decreases |a|
  {
    var s := a + "/" + b;
    if a == "" {
      assert s[0] == '/' && s[1..] == b;
    } else {
      assert s[0] == a[0] && s[1..] == a[1..] + "/" + b;
      if IsSep(a[0]) {
        SplitAt(a[1..], b, "");
        assert [cur] + (Split(a[1..], "") + Split(b, "")) == [cur] + Split(a[1..], "") + Split(b, "");
      } else {
        SplitAt(a[1..], b, cur + [a[0]]);
      }
    }
  }

  // The parts of a joined path: those of the first, and then the segments of the second.
  lemma JoinedParts(a: string, b: string)
    requires a != ""
    ensures IsAbs(a + "/" + b) == IsAbs(a)
    ensures Parts(a + "/" + b) == PushAll(IsAbs(a), Parts(a), Split(b, ""))
  {
    assert (a + "/" + b)[0] == a[0];
    SplitAt(a, b, "");
    PushAllAppend(IsAbs(a), [], Split(a, ""), Split(b, ""));
  }

  lemma SameRendering(s: string, t: string)
    requires s != "" && t != "" && IsAbs(s) == IsAbs(t) && Parts(s) == Parts(t)
    ensures Normalized(s) == Normalized(t)
  {
  }

  // Joining can go step by step, on paths that are normalised already.
  lemma JoinIncremental(a: string, b: string)
    requires a != ""
    ensures Normalized(a + "/" + b) == Normalized(Normalized(a) + "/" + b)
  {
    hide Parts;
    NormalizedParts(a);
    var n := Normalized(a);
    hide Normalized;
    JoinedParts(a, b);
    JoinedParts(n, b);
    SameRendering(a + "/" + b, n + "/" + b);
  }

  function NonEmpty(args: seq<string>): seq<string>
  {
    if args == [] then [] else (if args[0] == "" then [] else [args[0]]) + NonEmpty(args[1..])
  }

  // native_path_join on string arguments.
  function PathJoin(args: seq<string>): string
  {
    if NonEmpty(args) == [] then "." else Normalized(Join(NonEmpty(args)))
  }

  lemma {:induction false} NonEmptyAppend(args: seq<string>, b: string)
    ensures NonEmpty(args + [b]) == NonEmpty(args) + (if b == "" then [] else [b])
    decreases |args|
  {
    if args == [] {
      assert args + [b] == [b] && [b][1..] == [];
    } else {
      assert (args + [b])[0] == args[0] && (args + [b])[1..] == args[1..] + [b];
      NonEmptyAppend(args[1..], b);
    }
  }

  lemma {:induction false} JoinAppend(parts: seq<string>, b: string)
    requires parts != []
    ensures Join(parts + [b]) == Join(parts) + "/" + b
    decreases |parts|
  {
    if |parts| > 1 {
      assert (parts + [b])[1..] == parts[1..] + [b];
      JoinAppend(parts[1..], b);
    }
  }

  lemma {:induction false} NonEmptyOnly(args: seq<string>)
    ensures forall i :: 0 <= i < |NonEmpty(args)| ==> NonEmpty(args)[i] != ""
    ensures NonEmpty(args) != [] ==> Join(NonEmpty(args)) != ""
    decreases |args|
  {
    if args != [] {
      NonEmptyOnly(args[1..]);
    }
  }

  // One more argument is joined to what the others came to; an empty one changes nothing.
  lemma JoinOneMore(args: seq<string>, b: string)
    requires NonEmpty(args) != []
    ensures PathJoin(args + [b]) == if b == "" then PathJoin(args) else Normalized(PathJoin(args) + "/" + b)
  {
    hide Normalized;
    NonEmptyAppend(args, b);
    NonEmptyOnly(args);
    if b == "" {
      assert NonEmpty(args) + [] == NonEmpty(args);
    } else {
      JoinAppend(NonEmpty(args), b);
      JoinIncremental(Join(NonEmpty(args)), b);
    }
  }

  // ---------------------------------------------------------------- what a path leads to

  // A place below the root, or so many directories above the current one and down from there again.
  datatype Place = Place(root: bool, ups: nat, names: seq<string>)

  // One directory down, or up; above the root is the root.
  function Go(p: Place, name: string): Place
  {
    if name == ".." then
      if p.names != [] then p.(names := p.names[..|p.names| - 1]) else if p.root then p else p.(ups := p.ups + 1)
    else if name in ["", "."] then p
    else p.(names := p.names + [name])
  }

  // Reading the path a character at a time.
  function Follow(p: Place, name: string, rest: string): Place
    decreases |rest|
  {
    if rest == "" then Go(p, name)
    else if rest[0] in "/\\" then Follow(Go(p, name), "", rest[1..])
    else Follow(p, name + [rest[0]], rest[1..])
  }

  function Target(path: string): Place
  {
    Follow(Place(path != "" && path[0] in "/\\", 0, []), "", path)
  }

  function Ups(n: nat): (r: seq<string>)
    ensures |r| == n && forall i :: 0 <= i < n ==> r[i] == ".."
  {
    seq(n, _ => "..")
  }

  // The path of a place: slashes between the names, and a dot for the current directory.
  function PathTo(p: Place): string
  {
    var text := Join(Ups(p.ups) + p.names);
    if p.root then "/" + text else if text == "" then "." else text
  }

  // A place as the parts of a path.
  ghost predicate Stands(p: Place, parts: seq<string>)
  {
    && parts == Ups(p.ups) + p.names && (p.root ==> p.ups == 0)
    && forall i :: 0 <= i < |p.names| ==> p.names[i] != ".." && p.names[i] != ""
  }

  lemma GoPushes(p: Place, parts: seq<string>, seg: string)
    requires Stands(p, parts)
    ensures Stands(Go(p, seg), Push(p.root, parts, seg)) && Go(p, seg).root == p.root
  {
    if p.names != [] {
      assert parts[|parts| - 1] == p.names[|p.names| - 1];
      assert parts[..|parts| - 1] == Ups(p.ups) + p.names[..|p.names| - 1];
    } else if p.ups > 0 {
      assert parts[|parts| - 1] == "..";
    }
    assert Ups(p.ups) + [".."] == Ups(p.ups + 1);
    assert parts + [seg] == Ups(p.ups) + (p.names + [seg]);
    assert p.names == [] ==> parts + [".."] == Ups(p.ups + 1) + [];
  }

  lemma {:induction false} FollowPushes(p: Place, parts: seq<string>, name: string, rest: string)
    requires Stands(p, parts)
    ensures Stands(Follow(p, name, rest), PushAll(p.root, parts, Split(rest, name)))
      && Follow(p, name, rest).root == p.root
    decreases |rest|
  {
    hide Push, Go, Stands;
    GoPushes(p, parts, name);
    if rest == "" {
      assert [name][1..] == [];
    } else if IsSep(rest[0]) {
      var more := Split(rest[1..], "");
      FollowPushes(Go(p, name), Push(p.root, parts, name), "", rest[1..]);
      assert ([name] + more)[0] == name && ([name] + more)[1..] == more;
    } else {
      FollowPushes(p, parts, name + [rest[0]], rest[1..]);
    }
  }

  lemma {:induction false} JoinNames(parts: seq<string>)
    requires forall i :: 0 <= i < |parts| ==> parts[i] != ""
    ensures Join(parts) == "" <==> parts == []
    decreases |parts|
  {
  }

  /** Normalising a path gives the path of the place that it leads to. */
  lemma NormalizedLeads(path: string)
    ensures Normalized(path) == PathTo(Target(path))
  {
    var p := Target(path);
    var start := Place(path != "" && path[0] in "/\\", 0, []);
    FollowPushes(start, [], "", path);
    JoinNames(Ups(p.ups) + p.names);
    if path == "" {
      assert Split("", "") == [""] && [""][1..] == [];
      assert Ups(0) + [] == [];
    }
  }

  // ---------------------------------------------------------------- laws

  lemma OnePart(x: string)
    requires Plain(x)
    ensures Split(x, "") == [x]
  {
    SplitSegment(x, "", "");
    assert x + "" == x && "" + x == x;
  }

  lemma PushOne(isAbs: bool, parts: seq<string>, seg: string)
    ensures PushAll(isAbs, parts, [seg]) == Push(isAbs, parts, seg)
  {
    hide Push;
    assert [seg][1..] == [];
  }

  // A part and the way up again is nothing.
  lemma UpUndoes(a: string, x: string)
    requires a != "" && Plain(x) && x != ".."
    ensures Normalized(a + "/" + x + "/..") == Normalized(a)
  {
    var isAbs, parts := IsAbs(a), Parts(a);
    OnePart(x);
    OnePart("..");
    JoinedParts(a, x);
    JoinedParts(a + "/" + x, "..");
    assert a + "/" + x + "/" + ".." == a + "/" + x + "/..";
    PushOne(isAbs, parts, x);
    PushOne(isAbs, parts + [x], "..");
    assert (parts + [x])[..|parts|] == parts;
    hide Parts;
    SameRendering(a + "/" + x + "/..", a);
  }

  lemma Rooted(isAbs: bool, parts: seq<string>)
    requires Normal(isAbs, parts) && Render(isAbs, parts) == "/"
    ensures isAbs && parts == []
  {
    RenderStarts(isAbs, parts);
    JoinNames(parts);
    assert isAbs;
    assert Render(isAbs, parts)[1..] == Join(parts);
  }

  // There is nothing above the root.
  lemma RootStays(a: string)
    requires Normalized(a) == "/"
    ensures Normalized(a + "/..") == "/"
  {
    PartsNormal(a);
    Rooted(IsAbs(a), Parts(a));
    OnePart("..");
    JoinedParts(a, "..");
    assert a + "/" + ".." == a + "/..";
    PushOne(true, [], "..");
    hide Parts;
    SameRendering(a + "/..", a);
  }

  lemma {:induction false} SplitSeparated(a: string, b: string, cur: string, sep: char)
    requires IsSep(sep)
    ensures Split(a + [sep] + b, cur) == Split(a, cur) + Split(b, "")
    decreases |a|
  {
    var s := a + [sep] + b;
    if a == "" {
      assert s[0] == sep && s[1..] == b;
    } else {
      assert s[0] == a[0] && s[1..] == a[1..] + [sep] + b;
      if IsSep(a[0]) {
        SplitSeparated(a[1..], b, "", sep);
        assert [cur] + (Split(a[1..], "") + Split(b, "")) == [cur] + Split(a[1..], "") + Split(b, "");
      } else {
        SplitSeparated(a[1..], b, cur + [a[0]], sep);
      }
    }
  }

  // Both separators mean the same.
  lemma BothSeparators(a: string, b: string)
    ensures Normalized(a + "\\" + b) == Normalized(a + "/" + b)
  {
    SplitSeparated(a, b, "", '\\');
    SplitSeparated(a, b, "", '/');
    var s, t := a + "\\" + b, a + "/" + b;
    assert s[0] == (if a == "" then '\\' else a[0]) && t[0] == (if a == "" then '/' else a[0]);
    SameRendering(s, t);
  }

  lemma OnePartOrNone(b: string)
    ensures forall isAbs, parts :: PushAll(isAbs, parts, Split("/" + b, "")) == PushAll(isAbs, parts, Split(b, ""))
    ensures forall isAbs, parts :: PushAll(isAbs, parts, Split("./" + b, "")) == PushAll(isAbs, parts, Split(b, ""))
    ensures forall isAbs, parts ::
      PushAll(isAbs, parts, Split("", "")) == parts == PushAll(isAbs, parts, Split(".", ""))
  {
    var more := Split(b, "");
    assert ("/" + b)[1..] == b && ([""] + more)[1..] == more;
    assert ("./" + b)[1..] == "/" + b && "" + ['.'] == "." && (["."] + more)[1..] == more;
    assert Split("/" + b, "") == [""] + more && Split("./" + b, "") == ["."] + more;
    assert "."[1..] == "" && Split(".", "") == ["."];
    assert [""][1..] == [] && ["."][1..] == [];
  }

  // A separator too many, a dot and a separator at the end change nothing.
  lemma NothingBetween(a: string, b: string)
    requires a != ""
    ensures Normalized(a + "/" + ("/" + b)) == Normalized(a + "/" + b) == Normalized(a + "/" + ("./" + b))
    ensures Normalized(a + "/") == Normalized(a) == Normalized(a + "/.")
  {
    JoinedParts(a, "/" + b);
    JoinedParts(a, "./" + b);
    JoinedParts(a, b);
    JoinedParts(a, "");
    JoinedParts(a, ".");
    OnePartOrNone(b);
    assert a + "/" + "" == a + "/" && a + "/" + "." == a + "/.";
    SameRendering(a + "/" + ("/" + b), a + "/" + b);
    SameRendering(a + "/" + ("./" + b), a + "/" + b);
    SameRendering(a + "/", a);
    SameRendering(a + "/.", a);
  }

  // What was joined first: nothing but a dot, or one argument normalised.
  lemma JoinFirst(a: string)
    ensures PathJoin([]) == "." && PathJoin([a]) == if a == "" then "." else Normalized(a)
  {
    assert [a][1..] == [];
    assert NonEmpty([a]) == if a == "" then [] else [a];
  }
}
