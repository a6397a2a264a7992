// Slash-separated paths: the string forms the runtime passes around, the component
// sequences they stand for, and the containment test of pkg/oci/load.go.
module Paths {

  // The components of a path. A clean absolute path is a sequence of names.
  type Path = seq<string>

  predicate IsName(s: string) {
    s != "" && s != "." && s != ".." && '/' !in s
  }

  predicate AllNames(p: Path) {
    forall i :: 0 <= i < |p| ==> IsName(p[i])
  }

  // The components between slashes: "" for each doubled or outer slash.
  function Split(s: string): (parts: seq<string>)
    ensures |parts| > 0
    ensures forall i :: 0 <= i < |parts| ==> '/' !in parts[i] && |parts[i]| <= |s|
  {
    if s == "" then [""]
    else
      var rest := Split(s[1..]);
      if s[0] == '/' then [""] + rest
      else [[s[0]] + rest[0]] + rest[1..]
  }

  predicate IsAbs(s: string) {
    s != "" && s[0] == '/'
  }

  // One step of lexical cleaning: what the component `part` does to a cleaned prefix.
  function Push(done: Path, part: string, rooted: bool): Path {
    if part == "" || part == "." then done
    else if part == ".." then
      if done != [] && done[|done| - 1] != ".." then done[..|done| - 1]
      else if rooted then done
      else done + [".."]
    else done + [part]
  }

  // filepath.Clean on components: no "", no ".", and ".." only at the front of a path
  // that is not rooted.
  function Clean(parts: seq<string>, rooted: bool): Path {
    if parts == [] then []
    else Push(Clean(parts[..|parts| - 1], rooted), parts[|parts| - 1], rooted)
  }

  // A run of ".." followed by names only.
  predicate DotsThenNames(p: Path) {
    && (forall i :: 0 <= i < |p| ==> p[i] == ".." || IsName(p[i]))
    && forall i, j :: 0 <= i < j < |p| && p[j] == ".." ==> p[i] == ".."
  }

  lemma {:induction false} CleanShape(parts: seq<string>, rooted: bool)
    requires forall i :: 0 <= i < |parts| ==> '/' !in parts[i]
    ensures DotsThenNames(Clean(parts, rooted))
    ensures rooted ==> AllNames(Clean(parts, rooted))
  {
    if parts != [] {
      CleanShape(parts[..|parts| - 1], rooted);
    }
  }

  lemma {:induction false} CleanConcat(a: seq<string>, b: seq<string>, rooted: bool)
    requires AllNames(b)
    ensures Clean(a + b, rooted) == Clean(a, rooted) + b
  {
    if b == [] {
      assert a + b == a;
    } else {
      assert (a + b)[..|a + b| - 1] == a + b[..|b| - 1];
      CleanConcat(a, b[..|b| - 1], rooted);
    }
  }

  lemma CleanNames(p: Path, rooted: bool)
    requires AllNames(p)
    ensures Clean(p, rooted) == p
  {
    CleanConcat([], p, rooted);
    assert [] + p == p;
  }

  // ----- What cleaning comes to, without the stack -----

  // How far a component leads down.
  function Step(part: string): int {
    if part == "" || part == "." then 0 else if part == ".." then -1 else 1
  }

  // How far a path leads down from where it starts, and how far above that it ever gets.
  function Net(parts: seq<string>): int {
    if parts == [] then 0 else Net(parts[..|parts| - 1]) + Step(parts[|parts| - 1])
  }

  function Rise(parts: seq<string>): nat {
    if parts == [] then 0
    else
      var before := Rise(parts[..|parts| - 1]);
      if -Net(parts) > before then -Net(parts) else before
  }

  // A name survives unless what follows it ever climbs above it. Cleaning leaves the
  // surviving names, in order.
  function Survivors(parts: seq<string>): Path {
    if parts == [] then []
    else (if Step(parts[0]) == 1 && Rise(parts[1..]) == 0 then [parts[0]] else []) + Survivors(parts[1..])
  }

  function Ups(n: nat): (r: Path)
    ensures |r| == n && forall i :: 0 <= i < n ==> r[i] == ".."
  {
    if n == 0 then [] else Ups(n - 1) + [".."]
  }

  // Components that each lead down.
  predicate Plain(p: Path) {
    forall i :: 0 <= i < |p| ==> Step(p[i]) == 1
  }

  lemma PushLength(done: Path, part: string)
    requires Plain(done)
    ensures Plain(Push(done, part, true))
    ensures |Push(done, part, true)| == if part == ".." && done == [] then 0 else |done| + Step(part)
  {
  }

  lemma {:induction false} CleanLength(parts: seq<string>)
    ensures |Clean(parts, true)| == Net(parts) + Rise(parts)
    ensures Plain(Clean(parts, true))
  {
    if parts != [] {
      var front, last := parts[..|parts| - 1], parts[|parts| - 1];
      CleanLength(front);
      PushLength(Clean(front, true), last);
    }
  }

  lemma {:induction false} CleanFrom(a: seq<string>, b: seq<string>, c: seq<string>, rooted: bool)
    requires Clean(a, rooted) == Clean(b, rooted)
    ensures Clean(a + c, rooted) == Clean(b + c, rooted)
  {
    if c == [] {
      assert a + c == a && b + c == b;
    } else {
      var front := c[..|c| - 1];
      assert (a + c)[..|a + c| - 1] == a + front && (b + c)[..|b + c| - 1] == b + front;
      CleanFrom(a, b, front, rooted);
    }
  }

  // What is left of a directory after climbing that many levels, or to the root.
  function Above(base: Path, levels: nat): Path {
    if levels <= |base| then base[..|base| - levels] else []
  }

  lemma PushBelow(base: Path, levels: nat, down: Path, last: string)
    requires Plain(base) && Plain(down)
    ensures var climbs := down == [] && last == "..";
            Push(Above(base, levels) + down, last, true) ==
            Above(base, if climbs then levels + 1 else levels) + Push(down, last, true)
  {
    var whole := Above(base, levels) + down;
    if last == ".." && whole != [] {
      if down == [] {
        assert whole == Above(base, levels);
        assert whole[|whole| - 1] == base[|base| - levels - 1];
      } else {
        assert whole[|whole| - 1] == down[|down| - 1];
        assert whole[..|whole| - 1] == Above(base, levels) + down[..|down| - 1];
      }
    }
  }

  lemma {:induction false} CleanPlain(base: Path)
    requires Plain(base)
    ensures Clean(base, true) == base
  {
    if base != [] {
      CleanPlain(base[..|base| - 1]);
    }
  }

  // From a clean directory a path goes up as far as it rises, or to the root, and then down
  // what is left of it.
  lemma {:induction false} CleanBelow(base: Path, parts: seq<string>)
    requires Plain(base)
    ensures Clean(base + parts, true) == Above(base, Rise(parts)) + Clean(parts, true)
  {
    if parts == [] {
      assert base + parts == base;
      CleanPlain(base);
    } else {
      var front, last := parts[..|parts| - 1], parts[|parts| - 1];
      assert (base + parts)[..|base + parts| - 1] == base + front;
      CleanBelow(base, front);
      CleanLength(front);
      PushBelow(base, Rise(front), Clean(front, true), last);
    }
  }

  lemma CleanCons(first: string, parts: seq<string>)
    ensures Clean([first] + parts, true) ==
            if Step(first) == 1 && Rise(parts) == 0 then [first] + Clean(parts, true) else Clean(parts, true)
  {
    if Step(first) == 1 {
      CleanBelow([first], parts);
    } else {
      assert [first][..0] == [];
      CleanFrom([first], [], parts, true);
      assert [] + parts == parts;
    }
  }

  // Rooted, cleaning leaves exactly the survivors.
  lemma {:induction false} CleanIsSurvivors(parts: seq<string>)
    ensures Clean(parts, true) == Survivors(parts)
  {
    if parts != [] {
      assert parts == [parts[0]] + parts[1..];
      CleanCons(parts[0], parts[1..]);
      CleanIsSurvivors(parts[1..]);
    }
  }

  // Not rooted, one ".." for every level the path rises goes before them.
  lemma {:induction false} CleanKeepsRise(parts: seq<string>)
    ensures Clean(parts, false) == Ups(Rise(parts)) + Clean(parts, true)
  {
    CleanLength(parts);
    if parts != [] {
      var front, last := parts[..|parts| - 1], parts[|parts| - 1];
      CleanKeepsRise(front);
      CleanLength(front);
    }
  }

  // A name and the ".." after it cancel, wherever they are.
  lemma CleanCancels(a: seq<string>, name: string, b: seq<string>, rooted: bool)
    requires IsName(name)
    ensures Clean(a + [name, ".."] + b, rooted) == Clean(a + b, rooted)
  {
    var down := a + [name];
    assert down[..|a|] == a;
    assert (a + [name, ".."])[..|a| + 1] == down;
    CleanFrom(a + [name, ".."], a, b, rooted);
  }

  // Empty components and "." count for nothing.
  lemma CleanSkips(a: seq<string>, part: string, b: seq<string>, rooted: bool)
    requires part == "" || part == "."
    ensures Clean(a + [part] + b, rooted) == Clean(a + b, rooted)
  {
    assert (a + [part])[..|a|] == a;
    CleanFrom(a + [part], a, b, rooted);
  }

  // The string of some components, each two with a slash between them.
  function Joined(parts: seq<string>): string
    requires parts != []
  {
    if |parts| == 1 then parts[0] else parts[0] + "/" + Joined(parts[1..])
  }

  // Splitting loses nothing.
  lemma {:induction false} JoinedSplit(s: string)
    ensures Joined(Split(s)) == s
  {
    if s != "" {
      var rest := Split(s[1..]);
      JoinedSplit(s[1..]);
      if s[0] == '/' {
        assert Split(s)[1..] == rest;
      } else {
        assert Split(s)[1..] == rest[1..];
        assert Split(s)[0] == [s[0]] + rest[0];
      }
      assert s == [s[0]] + s[1..];
    }
  }

  lemma {:induction false} SplitConcat(a: string, b: string)
    ensures Split(a + "/" + b) == Split(a) + Split(b)
  {
    var whole := a + "/" + b;
    if a == "" {
      assert whole == "/" + b && whole[1..] == b;
    } else {
      assert whole[1..] == a[1..] + "/" + b && whole[0] == a[0];
      SplitConcat(a[1..], b);
    }
  }

  lemma {:induction false} SplitName(s: string)
    requires '/' !in s
    ensures Split(s) == [s]
  {
    if s != "" {
      SplitName(s[1..]);
      assert [s[0]] + s[1..] == s;
    }
  }

  function Slash(front: string, back: string): string {
    front + "/" + back
  }

  lemma SplitCancels(front: string, name: string, back: string)
    requires IsName(name)
    ensures Split(Slash(front, Slash(name, Slash("..", back)))) == Split(front) + [name, ".."] + Split(back)
  {
    var up := "..";
    SplitSlashName(up, back);
    SplitSlashName(name, Slash(up, back));
    SplitConcat(front, Slash(name, Slash(up, back)));
    assert Split(front) + ([name] + ([up] + Split(back))) == Split(front) + [name, up] + Split(back);
  }

  lemma SplitSlashName(name: string, back: string)
    requires '/' !in name
    ensures Split(Slash(name, back)) == [name] + Split(back)
  {
    SplitName(name);
    SplitConcat(name, back);
  }

  // A slash in front of a path only makes it rooted.
  lemma RootedSurvivors(s: string)
    ensures Clean(Split("/" + s), true) == Survivors(Split(s))
  {
    var parts := Split(s);
    assert "/" + s == "" + "/" + s;
    SplitConcat("", s);
    CleanSkips([], "", parts, true);
    assert [] + [""] + parts == [""] + parts && [] + parts == parts;
    CleanIsSurvivors(parts);
  }

  // filepath.Join of a clean absolute path with anything.
  function JoinUnder(base: Path, relative: string): Path {
    Clean(base + Split(relative), true)
  }

  // The string form of a clean absolute path.
  function Render(p: Path): string {
    if p == [] then "/" else RenderNames(p)
  }

  function RenderNames(p: Path): string {
    if p == [] then "" else "/" + p[0] + RenderNames(p[1..])
  }

  // pkg/oci/load.go: path is parent, or begins with parent and a slash.
  predicate IsWithin(parent: string, path: string) {
    path == parent || parent + "/" <= path
  }

  lemma LongerNameIsNoPrefix(x: string, s: string, y: string, t: string)
    requires '/' !in x && |y| < |x|
    requires t == "" || t[0] == '/'
    ensures !(x + s <= y + t)
  {
    assert (x + s)[|y|] == x[|y|] != '/';
    if t != "" {
      assert (y + t)[|y|] == '/';
    }
  }

  lemma NamesAlign(x: string, s: string, y: string, t: string)
    requires '/' !in x && '/' !in y
    requires s != "" && s[0] == '/'
    requires t == "" || t[0] == '/'
    requires x + s <= y + t
    ensures x == y && s <= t
  {
    assert (x + s)[|x|] == '/' == (y + t)[|x|];
    if |y| < |x| {
      LongerNameIsNoPrefix(x, s, y, t);
    }
    assert x == (x + s)[..|x|] == (y + t)[..|x|] == y;
    assert s == (x + s)[|x|..] && t == (y + t)[|x|..];
  }

  lemma {:induction false} RenderPrefix(a: Path, b: Path)
    requires AllNames(a) && AllNames(b)
    ensures RenderNames(a) + "/" <= RenderNames(b) <==> a <= b && a != b
  {
    if a != [] && b != [] {
      var s, t := RenderNames(a[1..]) + "/", RenderNames(b[1..]);
      RenderPrefix(a[1..], b[1..]);
      assert RenderNames(a) + "/" == "/" + (a[0] + s);
      assert RenderNames(b) == "/" + (b[0] + t);
      if RenderNames(a) + "/" <= RenderNames(b) {
        assert a[0] + s == (RenderNames(a) + "/")[1..] <= RenderNames(b)[1..] == b[0] + t;
        NamesAlign(a[0], s, b[0], t);
        assert a == [a[0]] + a[1..] && b == [b[0]] + b[1..];
      }
    }
  }

  lemma NamesAgree(x: string, s: string, y: string, t: string)
    requires '/' !in x && '/' !in y
    requires s == "" || s[0] == '/'
    requires t == "" || t[0] == '/'
    requires x + s == y + t
    ensures x == y && s == t
  {
    assert x + (s + "/") == y + (t + "/") by {
      assert x + (s + "/") == (x + s) + "/" == (y + t) + "/" == y + (t + "/");
    }
    NamesAlign(x, s + "/", y, t + "/");
    assert s == (x + s)[|x|..] && t == (y + t)[|y|..];
  }

  lemma {:induction false} RenderInjective(a: Path, b: Path)
    requires AllNames(a) && AllNames(b) && RenderNames(a) == RenderNames(b)
    ensures a == b
  {
    if a != [] && b != [] {
      var s, t := RenderNames(a[1..]), RenderNames(b[1..]);
      assert RenderNames(a)[1..] == a[0] + s && RenderNames(b)[1..] == b[0] + t;
      NamesAgree(a[0], s, b[0], t);
      RenderInjective(a[1..], b[1..]);
      assert a == [a[0]] + a[1..] && b == [b[0]] + b[1..];
    }
  }

  // The string test is component-wise containment, except that "/" contains nothing but
  // itself.
  lemma IsWithinExact(parent: Path, path: Path)
    requires AllNames(parent) && AllNames(path)
    ensures IsWithin(Render(parent), Render(path)) <==> parent <= path && (parent != [] || path == [])
  {
    if parent == [] {
      if path != [] {
        assert RenderNames(path)[1] == path[0][0];
        assert Render(path)[1] != '/';
      }
    } else if path != [] {
      RenderPrefix(parent, path);
      if Render(parent) == Render(path) {
        RenderInjective(parent, path);
      }
    }
  }

  // Splitting and cleaning the string of a clean path gives the path back.
  lemma {:induction false} CleanRendered(p: Path)
    requires AllNames(p)
    ensures Clean(Split(Render(p)), true) == p
  {
    if p == [] {
      assert Split("/"[1..]) == [""];
      assert Split("/") == ["", ""];
      CleanSkips([], "", [""], true);
      CleanSkips([], "", [], true);
      assert [""] == [] + [""] + [] && [] + [""] + [""] == ["", ""];
    } else {
      SplitRendered(p);
      CleanSkips([], "", p, true);
      assert [] + [""] + p == [""] + p && [] + p == p;
      CleanNames(p, true);
    }
  }

  lemma {:induction false} SplitRendered(p: Path)
    requires AllNames(p)
    ensures Split(RenderNames(p)) == [""] + p
  {
    if p != [] {
      SplitRendered(p[1..]);
      SplitBehind(p[0], RenderNames(p[1..]), p[1..]);
      assert p == [p[0]] + p[1..];
      assert RenderNames(p) == "" + "/" + (p[0] + RenderNames(p[1..]));
      SplitConcat("", p[0] + RenderNames(p[1..]));
    }
  }

  // A name in front of a rendered path takes the place of its first, empty component.
  lemma {:induction false} SplitBehind(name: string, rendered: string, p: Path)
    requires '/' !in name && Split(rendered) == [""] + p
    ensures Split(name + rendered) == [name] + p
  {
    if name == "" {
      assert name + rendered == rendered;
    } else {
      assert (name + rendered)[1..] == name[1..] + rendered;
      SplitBehind(name[1..], rendered, p);
      assert [name[0]] + name[1..] == name;
    }
  }
}
