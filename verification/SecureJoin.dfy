// secureJoin of pkg/runtime/fs.go: resolving a container path below a root directory
// without ever leaving it, over a file tree that does not change meanwhile.
module SecureJoin {

  import opened Wrappers
  import opened Paths

  datatype Node = Directory | File | Symlink(target: string)

  // What lstat and readlink see, by absolute path, below the root.
  type Tree = map<Path, Node>

  const MAX_SYMLINK_DEPTH := 32

  // How many components, symlinks or not, the loop takes before it gives up.
  function Budget(): (components: nat)
    ensures components == 33
  {
    MAX_SYMLINK_DEPTH + 1
  }

  datatype JoinError = TooManyLinks | Escapes

  function Parent(p: Path): Path {
    if p == [] then [] else p[..|p| - 1]
  }

  // Every entry below the root has a well-formed name and lies in a directory.
  ghost predicate StaticTree(fs: Tree, root: Path) {
    && AllNames(root)
    && forall p :: p in fs && root < p ==>
         && AllNames(p)
         && (Parent(p) == root || (Parent(p) in fs && fs[Parent(p)] == Directory))
  }

  // Every prefix of p strictly below the root exists and is no symlink, so the kernel
  // finds the children of p without following a link.
  ghost predicate Grounded(fs: Tree, root: Path, p: Path) {
    && root <= p && AllNames(p)
    && forall k :: |root| < k <= |p| ==> p[..k] in fs && !fs[p[..k]].Symlink?
  }

  // p is at or below the root, has no "..", and no existing prefix of it strictly below
  // the root is a symlink: using p as a path cannot lead outside the root.
  ghost predicate Contained(fs: Tree, root: Path, p: Path) {
    && root <= p && AllNames(p)
    && forall k :: |root| < k <= |p| && p[..k] in fs ==> !fs[p[..k]].Symlink?
  }

  // lstat. Asking about a path that would make the kernel follow a link is not modelled,
  // so every caller has to show that it never does.
  function Lstat(fs: Tree, ghost root: Path, p: Path): (r: Option<Node>)
    requires p != [] && Grounded(fs, root, Parent(p))
  {
    if p in fs then Some(fs[p]) else None
  }

  // The components still to walk after following a link: filepath.Join of the target and
  // the rest. A relative target that cleans to nothing leaves ".", except that joining two
  // empty strings leaves nothing.
  function JoinRest(target: string, rest: Path): Path {
    var joined := Clean(Split(target) + rest, IsAbs(target));
    if joined == [] && !IsAbs(target) && target != "" then ["."] else joined
  }

  // What the loop keeps about the components still to walk. Once a name is reached only
  // names follow, which is what makes the early return for missing entries safe.
  ghost predicate Walkable(remaining: Path) {
    DotsThenNames(remaining) || remaining == ["."]
  }

  lemma JoinRestWalkable(target: string, rest: Path)
    requires AllNames(rest)
    ensures Walkable(JoinRest(target, rest))
  {
    CleanShape(Split(target) + rest, IsAbs(target));
  }

  datatype Config = Config(current: Path, remaining: Path)

  ghost predicate Good(fs: Tree, root: Path, c: Config) {
    Grounded(fs, root, c.current) && Walkable(c.remaining)
  }

  datatype Progress = Arrived(path: Path) | Onward(next: Config)

  // One component of the walk.
  function Advance(fs: Tree, root: Path, c: Config): (r: Progress)
    requires Good(fs, root, c) && c.remaining != []
    ensures r.Arrived? ==> r.path == c.current + c.remaining && AllNames(c.remaining) && c.current + [c.remaining[0]] !in fs
    ensures r.Onward? ==> Good(fs, root, r.next)
  {
    var part, rest := c.remaining[0], c.remaining[1..];
    if part == "." then Onward(Config(c.current, rest))
    else if part == ".." then
      GroundedParent(fs, root, c.current);
      Onward(Config(if c.current == root then root else Parent(c.current), rest))
    else
      var next := c.current + [part];
      assert Parent(next) == c.current;
      match Lstat(fs, root, next)
      case None => Arrived(next + rest)
      case Some(Symlink(target)) =>
        JoinRestWalkable(target, rest);
        Onward(Config(if IsAbs(target) then root else c.current, JoinRest(target, rest)))
      case Some(_) =>
        GroundedChild(fs, root, c.current, part);
        Onward(Config(next, rest))
  }

  lemma GroundedParent(fs: Tree, root: Path, p: Path)
    requires Grounded(fs, root, p)
    ensures p != root ==> Grounded(fs, root, Parent(p))
  {
    if p != root {
      assert forall k :: 0 <= k < |p| ==> Parent(p)[..k] == p[..k];
    }
  }

  lemma GroundedChild(fs: Tree, root: Path, p: Path, name: string)
    requires Grounded(fs, root, p) && IsName(name)
    requires p + [name] in fs && !fs[p + [name]].Symlink?
    ensures Grounded(fs, root, p + [name])
  {
    var q := p + [name];
    forall k | |root| < k <= |q| ensures q[..k] in fs && !fs[q[..k]].Symlink? {
      if k <= |p| {
        assert q[..k] == p[..k];
      } else {
        assert q[..k] == q;
      }
    }
  }

  // The whole walk with a budget of components, symlinks or not.
  function Walk(fs: Tree, root: Path, c: Config, budget: nat): Result<Path, JoinError>
    requires Good(fs, root, c)
    decreases budget
  {
    if c.remaining == [] then
      if IsWithin(Render(root), Render(c.current)) then Success(c.current) else Failure(Escapes)
    else if budget == 0 then Failure(TooManyLinks)
    else
      match Advance(fs, root, c)
      case Arrived(path) => Success(path)
      case Onward(next) => Walk(fs, root, next, budget - 1)
  }

  // A walk begins at the root, with the surviving names of the path.
  function Start(root: Path, unsafePath: string): (c: Config)
    requires AllNames(root)
    ensures c == Config(root, Survivors(Split(unsafePath))) && AllNames(c.remaining)
    ensures forall fs :: Good(fs, root, c)
  {
    RootedSurvivors(unsafePath);
    CleanShape(Split("/" + unsafePath), true);
    Config(root, Clean(Split("/" + unsafePath), true))
  }

  // Nothing exists below a missing entry.
  lemma {:induction false} MissingBelow(fs: Tree, root: Path, missing: Path, p: Path)
    requires StaticTree(fs, root) && root < missing <= p && missing !in fs
    ensures p !in fs
    decreases |p|
  {
    if p != missing {
      assert missing <= Parent(p);
      MissingBelow(fs, root, missing, Parent(p));
    }
  }

  // The early return is contained: it hangs ordinary names below a grounded directory.
  lemma ArrivalContained(fs: Tree, root: Path, current: Path, tail: Path)
    requires StaticTree(fs, root) && Grounded(fs, root, current)
    requires AllNames(tail) && tail != [] && current + [tail[0]] !in fs
    ensures Contained(fs, root, current + tail)
  {
    var p, missing := current + tail, current + [tail[0]];
    forall k | |root| < k <= |p| && p[..k] in fs ensures !fs[p[..k]].Symlink? {
      if k <= |current| {
        assert p[..k] == current[..k];
      } else {
        assert missing <= p[..k];
        MissingBelow(fs, root, missing, p[..k]);
      }
    }
  }

  lemma ArrivedContained(fs: Tree, root: Path, c: Config)
    requires StaticTree(fs, root) && Good(fs, root, c) && c.remaining != [] && Advance(fs, root, c).Arrived?
    ensures Contained(fs, root, Advance(fs, root, c).path)
  {
    ArrivalContained(fs, root, c.current, c.remaining);
  }

  // The body of the loop. `stop` says that the entry is missing and `current'` is the answer.
  method WalkComponent(rootfs: Path, current: Path, remaining: Path, fs: Tree)
    returns (stop: bool, current': Path, remaining': Path)
    requires StaticTree(fs, rootfs) && Good(fs, rootfs, Config(current, remaining)) && remaining != []
    ensures Advance(fs, rootfs, Config(current, remaining)) ==
            if stop then Arrived(current') else Onward(Config(current', remaining'))
    ensures stop ==> Contained(fs, rootfs, current')
  {
    var part := remaining[0];
    stop, current', remaining' := false, current, remaining[1..];
    if part == "." {
    } else if part == ".." {
      if current != rootfs {
        current' := Parent(current);
      }
    } else {
      var next := current + [part];
      assert Parent(next) == current;
      var node := Lstat(fs, rootfs, next);
      if node.None? {
        ArrivedContained(fs, rootfs, Config(current, remaining));
        stop, current' := true, next + remaining';
      } else if !node.value.Symlink? {
        current' := next;
      } else {
        var link := node.value.target;
        if IsAbs(link) {
          current' := rootfs;
        }
        remaining' := JoinRest(link, remaining');
      }
    }
  }

  // The loop, from the cleaned path on, for any limit.
  method WalkLoop(rootfs: Path, cleaned: Path, fs: Tree, maxDepth: nat) returns (r: Result<Path, JoinError>)
    requires StaticTree(fs, rootfs) && AllNames(cleaned)
    ensures r == Walk(fs, rootfs, Config(rootfs, cleaned), maxDepth + 1)
    ensures r.Success? ==> Contained(fs, rootfs, r.value)
    ensures r == Failure(Escapes) ==> rootfs == []
  {
    var current, remaining := rootfs, cleaned;
    var depth := 0;
    while remaining != []
      invariant 0 <= depth <= maxDepth + 1
      invariant Good(fs, rootfs, Config(current, remaining))
      invariant Walk(fs, rootfs, Config(rootfs, cleaned), maxDepth + 1)
             == Walk(fs, rootfs, Config(current, remaining), maxDepth + 1 - depth)
      decreases maxDepth + 1 - depth
    {
      if depth > maxDepth {
        return Failure(TooManyLinks);
      }
      var stop;
      stop, current, remaining := WalkComponent(rootfs, current, remaining, fs);
      if stop {
        return Success(current);
      }
      depth := depth + 1;
    }
    IsWithinExact(rootfs, current);
    if !IsWithin(Render(rootfs), Render(current)) {
      return Failure(Escapes);
    }
    return Success(current);
  }

  // Resolves a container path against the root. For every tree and every link graph a
  // successful result is contained, the walk always ends, and the final escape test can
  // only fail when the root is "/", which the string test takes to contain nothing.
  method SecureJoin(rootfs: Path, unsafePath: string, fs: Tree) returns (r: Result<Path, JoinError>)
    requires StaticTree(fs, rootfs)
    ensures r == Walk(fs, rootfs, Start(rootfs, unsafePath), Budget())
    ensures r.Success? ==> Contained(fs, rootfs, r.value)
    ensures r == Failure(Escapes) ==> rootfs == []
  {
    ghost var start := Start(rootfs, unsafePath);
    r := WalkLoop(rootfs, Clean(Split("/" + unsafePath), true), fs, MAX_SYMLINK_DEPTH);
  }

  // ----- What is walked -----

  // A name and the ".." after it make no difference, wherever they are in the path.
  lemma StartCancels(root: Path, front: string, name: string, back: string)
    requires AllNames(root) && IsName(name)
    ensures Start(root, Slash(front, Slash(name, Slash("..", back)))) == Start(root, Slash(front, back))
  {
    var f, b := Split(front), Split(back);
    SplitCancels(front, name, back);
    SplitConcat(front, back);
    CleanIsSurvivors(f + [name, ".."] + b);
    CleanIsSurvivors(f + b);
    CleanCancels(f, name, b, true);
  }

  // What is left to walk after a link: one ".." for each level that the target climbs, if
  // it is relative, then its surviving names and the rest.
  lemma JoinRestSurvivors(target: string, rest: Path)
    requires AllNames(rest)
    ensures var parts := Split(target) + rest;
            var left := (if IsAbs(target) then [] else Ups(Rise(parts))) + Survivors(parts);
            JoinRest(target, rest) == if left == [] && !IsAbs(target) && target != "" then ["."] else left
  {
    CleanIsSurvivors(Split(target) + rest);
    CleanKeepsRise(Split(target) + rest);
  }

  // An absolute target starts again at the root, any other where the link is.
  lemma LinkFollowed(fs: Tree, root: Path, c: Config, target: string)
    requires Good(fs, root, c) && c.remaining != [] && IsName(c.remaining[0])
    requires c.current + [c.remaining[0]] in fs && fs[c.current + [c.remaining[0]]] == Symlink(target)
    ensures var rest := c.remaining[1..];
            AllNames(rest) &&
            var parts := Split(target) + rest;
            Advance(fs, root, c) ==
              if "/" <= target then Onward(Config(root, Survivors(parts)))
              else Onward(Config(c.current,
                                 if Rise(parts) == 0 && Survivors(parts) == [] && target != "" then ["."]
                                 else Ups(Rise(parts)) + Survivors(parts)))
  {
    var rest := c.remaining[1..];
    forall i | 0 <= i < |rest| ensures IsName(rest[i]) {
      assert rest[i] == c.remaining[i + 1];
    }
    JoinRestSurvivors(target, rest);
  }

  // Where there are no links a walk of names answers with the path itself, unless all of
  // the first `budget` names exist and there are more.
  lemma {:induction false} WalkWithoutLinks(fs: Tree, root: Path, current: Path, names: Path, budget: nat)
    requires Grounded(fs, root, current) && AllNames(names) && root != []
    requires forall p :: p in fs ==> !fs[p].Symlink?
    ensures Walk(fs, root, Config(current, names), budget) ==
            if |names| <= budget || (exists k :: 0 < k <= budget && current + names[..k] !in fs)
            then Success(current + names) else Failure(TooManyLinks)
    decreases budget
  {
    if names == [] {
      IsWithinExact(root, current);
      assert current + names == current;
    } else if budget > 0 {
      var next, rest := current + [names[0]], names[1..];
      assert names[..1] == [names[0]];
      if next in fs {
        GroundedChild(fs, root, current, names[0]);
        WalkWithoutLinks(fs, root, next, rest, budget - 1);
        assert next + rest == current + names;
        forall k | 0 <= k < |names| ensures next + rest[..k] == current + names[..k + 1] {
        }
        if k :| 0 < k <= budget < |names| && current + names[..k] !in fs {
          assert next + rest[..k - 1] !in fs;
        }
        if k :| 0 < k < budget < |names| && next + rest[..k] !in fs {
          assert current + names[..k + 1] !in fs;
        }
      } else {
        assert current + names[..1] !in fs;
      }
    }
  }

  // ----- A plain chroot-style resolver -----

  // Pathname resolution in the style of section 4.13 of POSIX.1-2017 with `root` as the
  // root directory: components one at a time, ".." at the root stays there, a link's own
  // components replace it as they stand. Names may be missing only as a tail.
  datatype Resolution = Found(path: Path) | NoSuchEntry | OutOfSteps

  // The components of a link target, less empty ones and ".".
  function Tidy(parts: seq<string>): (r: Path)
    ensures forall i :: 0 <= i < |r| ==> r[i] in parts && r[i] != "" && r[i] != "."
  {
    if parts == [] then []
    else
      var front, last := Tidy(parts[..|parts| - 1]), parts[|parts| - 1];
      if last == "" || last == "." then front else front + [last]
  }

  function DropDots(p: Path): Path {
    if p != [] && p[0] == ".." then DropDots(p[1..]) else p
  }

  // The components a link stands for. Those of an absolute one start at the root, where a
  // leading ".." means nothing.
  function Target(link: string): Path {
    if IsAbs(link) then DropDots(Tidy(Split(link))) else Tidy(Split(link))
  }

  // A relative link to the directory it is in still takes a step of its own when nothing
  // follows it.
  function Expand(link: string, rest: Path): Path {
    var todo := Target(link) + rest;
    if todo == [] && !IsAbs(link) && link != "" then ["."] else todo
  }

  function Resolve(fs: Tree, root: Path, current: Path, todo: Path, steps: nat): Resolution
    decreases steps
  {
    if todo == [] then Found(current)
    else if steps == 0 then OutOfSteps
    else
      var part, rest := todo[0], todo[1..];
      if part == "." then Resolve(fs, root, current, rest, steps - 1)
      else if part == ".." then
        Resolve(fs, root, if current == root then root else Parent(current), rest, steps - 1)
      else
        var next := current + [part];
        if next !in fs then
          if forall i :: 0 <= i < |rest| ==> rest[i] != ".." && rest[i] != "." then Found(next + rest) else NoSuchEntry
        else
          match fs[next]
          case Symlink(link) =>
            Resolve(fs, root, if IsAbs(link) then root else current, Expand(link, rest), steps - 1)
          case _ => Resolve(fs, root, next, rest, steps - 1)
  }

  // What secureJoin should answer for a resolution.
  function Answer(r: Resolution): Option<Result<Path, JoinError>> {
    match r
    case Found(path) => Some(Success(path))
    case OutOfSteps => Some(Failure(TooManyLinks))
    case NoSuchEntry => None
  }

  // A link target whose ".." components, if any, are all at its front.
  predicate DotsInFront(link: string) {
    DotsThenNames(Tidy(Split(link)))
  }

  lemma {:induction false} CleanIgnoresTidied(parts: seq<string>, rooted: bool)
    ensures Clean(parts, rooted) == Clean(Tidy(parts), rooted)
  {
    if parts != [] {
      var front, last := parts[..|parts| - 1], parts[|parts| - 1];
      CleanIgnoresTidied(front, rooted);
      if last != "" && last != "." {
        assert Tidy(parts)[..|Tidy(parts)| - 1] == Tidy(front);
      }
    }
  }

  lemma {:induction false} TidyConcat(a: seq<string>, b: Path)
    requires AllNames(b)
    ensures Tidy(a + b) == Tidy(a) + b
  {
    if b == [] {
      assert a + b == a;
    } else {
      assert (a + b)[..|a + b| - 1] == a + b[..|b| - 1];
      TidyConcat(a, b[..|b| - 1]);
    }
  }

  lemma {:induction false} CleanKeepsFrontDots(p: Path)
    requires DotsThenNames(p)
    ensures Clean(p, false) == p
  {
    if p != [] {
      CleanKeepsFrontDots(p[..|p| - 1]);
    }
  }

  lemma {:induction false} DropDotsSnoc(p: Path, last: string)
    requires DotsThenNames(p + [last])
    ensures DropDots(p + [last]) == if last == ".." then [] else DropDots(p) + [last]
  {
    if p == [] {
      assert [last][1..] == [];
    } else if p[0] == ".." {
      assert (p + [last])[1..] == p[1..] + [last];
      DropDotsSnoc(p[1..], last);
    } else {
      assert (p + [last])[0] == p[0];
      assert (p + [last])[|p|] == last;
    }
  }

  lemma {:induction false} CleanDropsFrontDots(p: Path)
    requires DotsThenNames(p)
    ensures Clean(p, true) == DropDots(p)
  {
    if p != [] {
      var front, last := p[..|p| - 1], p[|p| - 1];
      assert p == front + [last];
      CleanDropsFrontDots(front);
      DropDotsSnoc(front, last);
      if last == ".." {
        AllDots(front);
      }
    }
  }

  lemma {:induction false} AllDots(p: Path)
    requires forall i :: 0 <= i < |p| ==> p[i] == ".."
    ensures DropDots(p) == []
  {
    if p != [] {
      AllDots(p[1..]);
    }
  }

  lemma {:induction false} DropDotsConcat(a: Path, b: Path)
    requires AllNames(b)
    ensures DropDots(a + b) == DropDots(a) + b
  {
    if a == [] {
      assert a + b == b;
    } else if a[0] == ".." {
      assert (a + b)[1..] == a[1..] + b;
      DropDotsConcat(a[1..], b);
    }
  }

  // For a target with its ".." in front, lexical cleaning loses nothing.
  lemma JoinRestIsExpand(link: string, rest: Path)
    requires AllNames(rest) && DotsInFront(link)
    ensures JoinRest(link, rest) == Expand(link, rest)
  {
    var parts := Split(link);
    CleanIgnoresTidied(parts + rest, IsAbs(link));
    TidyConcat(parts, rest);
    var p := Tidy(parts) + rest;
    assert DotsThenNames(p);
    if IsAbs(link) {
      CleanDropsFrontDots(p);
      DropDotsConcat(Tidy(parts), rest);
    } else {
      CleanKeepsFrontDots(p);
    }
  }

  ghost predicate LinksInFront(fs: Tree) {
    forall p, link :: p in fs && fs[p] == Symlink(link) ==> DotsInFront(link)
  }

  // One component of the walk is one step of the resolver.
  lemma AdvanceRefines(fs: Tree, root: Path, c: Config, steps: nat)
    requires Good(fs, root, c) && LinksInFront(fs) && c.remaining != [] && steps > 0
    ensures Resolve(fs, root, c.current, c.remaining, steps) ==
            match Advance(fs, root, c)
            case Arrived(path) => Found(path)
            case Onward(next) => Resolve(fs, root, next.current, next.remaining, steps - 1)
  {
    var part, rest := c.remaining[0], c.remaining[1..];
    var next := c.current + [part];
    if IsName(part) && next !in fs {
      assert c.current + c.remaining == next + rest;
    } else if IsName(part) && fs[next].Symlink? {
      JoinRestIsExpand(fs[next].target, rest);
    }
  }

  // Refinement: when every link has its ".." in front, the walk is the plain resolver,
  // component for component, at every budget.
  lemma {:induction false} WalkRefinesResolve(fs: Tree, root: Path, c: Config, budget: nat)
    requires Good(fs, root, c) && LinksInFront(fs) && root != []
    ensures Answer(Resolve(fs, root, c.current, c.remaining, budget)) == Some(Walk(fs, root, c, budget))
    decreases budget
  {
    if c.remaining == [] {
      IsWithinExact(root, c.current);
    } else if budget > 0 {
      AdvanceRefines(fs, root, c, budget);
      match Advance(fs, root, c) {
        case Arrived(_) =>
        case Onward(next) => WalkRefinesResolve(fs, root, next, budget - 1);
      }
    }
  }

  // secureJoin below a root other than "/" therefore answers as the resolver does on the
  // cleaned path, and refuses exactly the paths whose resolution takes more than 33 steps.
  lemma SecureJoinRefines(fs: Tree, root: Path, unsafePath: string)
    requires StaticTree(fs, root) && LinksInFront(fs) && root != []
    ensures var c := Start(root, unsafePath);
            var resolution := Resolve(fs, root, root, c.remaining, Budget());
            var joined := Walk(fs, root, c, Budget());
            && (joined.Failure? <==> resolution == OutOfSteps)
            && (joined.Success? ==> resolution == Found(joined.value))
  {
    WalkRefinesResolve(fs, root, Start(root, unsafePath), Budget());
  }

  // ----- Where lexical cleaning and resolution part -----

  // A static tree with no link target but this one, and a cleaned path to look up in it.
  ghost predicate OnlyLink(link: string, fs: Tree, root: Path, p: Path) {
    && root != [] && AllNames(p) && StaticTree(fs, root)
    && forall q :: q in fs && fs[q].Symlink? ==> fs[q].target == link
  }

  ghost predicate AgreeOn(fs: Tree, root: Path, p: Path, budget: nat)
    requires AllNames(root) && AllNames(p)
  {
    Answer(Resolve(fs, root, root, p, budget)) == Some(Walk(fs, root, Config(root, p), budget))
  }

  // The walk and the resolver agree wherever this is the only link target.
  ghost predicate SafeTarget(link: string) {
    forall fs: Tree, root: Path, p: Path, budget: nat ::
      OnlyLink(link, fs, root, p) ==> AgreeOn(fs, root, p, budget)
  }

  function Repeat(n: nat): string {
    if n == 0 then "" else Repeat(n - 1) + "x"
  }

  lemma {:induction false} RepeatShape(n: nat)
    ensures |Repeat(n)| == n && '/' !in Repeat(n) && '.' !in Repeat(n)
  {
    if n > 0 {
      RepeatShape(n - 1);
    }
  }

  lemma DotsInFrontOf(p: Path)
    requires p != [] && p[0] == ".."
    ensures DotsThenNames(p) <==> DotsThenNames(p[1..])
  {
    assert forall i :: 0 < i < |p| ==> p[i] == p[1..][i - 1];
    if DotsThenNames(p[1..]) {
      forall i, j | 0 <= i < j < |p| && p[j] == ".." ensures p[i] == ".." {
        if i > 0 {
          assert p[1..][j - 1] == ".." && p[1..][i - 1] == p[i];
        }
      }
    }
  }

  // In a root with nothing else in it, a ".." after a name runs into the missing name.
  lemma {:induction false} MixedDotsMiss(fs: Tree, root: Path, todo: Path, steps: nat)
    requires !DotsThenNames(todo) && forall i :: 0 <= i < |todo| ==> todo[i] == ".." || IsName(todo[i])
    requires forall i :: 0 <= i < |todo| ==> root + [todo[i]] !in fs
    requires steps >= |todo|
    ensures Resolve(fs, root, root, todo, steps) == NoSuchEntry
  {
    if todo[0] == ".." {
      var rest := todo[1..];
      DotsInFrontOf(todo);
      MixedDotsMiss(fs, root, rest, steps - 1);
    }
  }

  lemma {:induction false} DropDotsMixed(p: Path)
    requires !DotsThenNames(p)
    ensures !DotsThenNames(DropDots(p)) && forall i :: 0 <= i < |DropDots(p)| ==> DropDots(p)[i] in p
  {
    if p[0] == ".." {
      DotsInFrontOf(p);
      DropDotsMixed(p[1..]);
    }
  }

  // The components of a mixed target are mixed, and short.
  lemma MixedTargetShape(link: string)
    requires !DotsInFront(link)
    ensures !DotsThenNames(Target(link))
    ensures forall i :: 0 <= i < |Target(link)| ==>
              (Target(link)[i] == ".." || IsName(Target(link)[i])) && |Target(link)[i]| <= |link|
  {
    var tidied := Tidy(Split(link));
    if IsAbs(link) {
      DropDotsMixed(tidied);
    }
    forall i | 0 <= i < |Target(link)| ensures Target(link)[i] in Split(link) {
      assert Target(link)[i] in tidied;
    }
  }

  // The tree whose only entry is that link.
  lemma LoneLinkMisses(link: string, root: Path, name: string, fs: Tree)
    requires AllNames(root) && IsName(name) && |name| > |link| && fs == map[root + [name] := Symlink(link)]
    requires !DotsInFront(link)
    ensures Resolve(fs, root, root, [name], 1 + |Target(link)|) == NoSuchEntry
  {
    var todo := Target(link);
    MixedTargetShape(link);
    forall i | 0 <= i < |todo| ensures root + [todo[i]] !in fs {
      assert (root + [todo[i]])[|root|] != (root + [name])[|root|];
    }
    MixedDotsMiss(fs, root, todo, |todo|);
    assert Expand(link, []) == todo;
    assert [name][1..] == [] && [name][0] == name;
  }

  // For any other target there is a tree with that one link in it on which they differ.
  lemma MixedTargetUnsafe(link: string, name: string)
    requires !DotsInFront(link) && IsName(name) && |name| > |link|
    ensures !SafeTarget(link)
  {
    var root, p := [name], [name];
    var fs: Tree := map[root + [name] := Symlink(link)];
    LoneLinkMisses(link, root, name, fs);
    LoneLinkTree(link, root, name, fs);
    assert !AgreeOn(fs, root, p, 1 + |Target(link)|);
  }

  lemma LoneLinkTree(link: string, root: Path, name: string, fs: Tree)
    requires AllNames(root) && root != [] && IsName(name) && fs == map[root + [name] := Symlink(link)]
    ensures OnlyLink(link, fs, root, [name])
  {
    assert Parent(root + [name]) == root;
  }

  // A link target is resolved like a real path lookup in every tree exactly when its ".."
  // are all at the front: "a/../b" is where the lexical collapse shows.
  lemma SafeTargetExact(link: string)
    ensures SafeTarget(link) <==> DotsInFront(link)
  {
    if DotsInFront(link) {
      forall fs: Tree, root: Path, p: Path, budget: nat
        | OnlyLink(link, fs, root, p)
        ensures AgreeOn(fs, root, p, budget)
      {
        WalkRefinesResolve(fs, root, Config(root, p), budget);
      }
    } else {
      RepeatShape(|link| + 1);
      MixedTargetUnsafe(link, Repeat(|link| + 1));
    }
  }

  // ----- Cycles -----

  // The configuration reached after n components, if the walk is still going.
  function After(fs: Tree, root: Path, c: Config, n: nat): (r: Option<Config>)
    requires Good(fs, root, c)
    ensures r.Some? ==> Good(fs, root, r.value)
    decreases n
  {
    if n == 0 then Some(c)
    else if c.remaining == [] then None
    else
      match Advance(fs, root, c)
      case Arrived(_) => None
      case Onward(next) => After(fs, root, next, n - 1)
  }

  lemma {:induction false} WalkContinues(fs: Tree, root: Path, c: Config, n: nat, budget: nat)
    requires Good(fs, root, c) && After(fs, root, c, n).Some?
    ensures budget < n ==> Walk(fs, root, c, budget) == Failure(TooManyLinks)
    ensures budget >= n ==> Walk(fs, root, c, budget) == Walk(fs, root, After(fs, root, c, n).value, budget - n)
    decreases n
  {
    if n > 0 && budget > 0 {
      WalkContinues(fs, root, Advance(fs, root, c).next, n - 1, budget - 1);
    }
  }

  // A walk that comes back to where it was is refused, whatever the budget.
  lemma {:induction false} CycleRefused(fs: Tree, root: Path, c: Config, n: nat, budget: nat)
    requires Good(fs, root, c) && n > 0 && After(fs, root, c, n) == Some(c)
    ensures Walk(fs, root, c, budget) == Failure(TooManyLinks)
    decreases budget
  {
    WalkContinues(fs, root, c, n, budget);
    if budget >= n {
      CycleRefused(fs, root, c, n, budget - n);
    }
  }

  // ----- Links that come back to themselves with more to walk -----

  lemma JoinRestCarries(link: string, rest: Path, tail: Path)
    requires AllNames(rest) && AllNames(tail) && JoinRest(link, rest) != [] && JoinRest(link, rest) != ["."]
    ensures JoinRest(link, rest + tail) == JoinRest(link, rest) + tail
  {
    CleanShape(Split(link) + rest, IsAbs(link));
    assert Split(link) + (rest + tail) == (Split(link) + rest) + tail;
    CleanConcat(Split(link) + rest, tail, IsAbs(link));
  }

  // The same configuration with more names waiting behind, where there is still something
  // to walk in front of them.
  function Behind(c: Config, tail: Path): Config {
    Config(c.current, c.remaining + tail)
  }

  predicate Going(c: Config) {
    c.remaining != [] && c.remaining != ["."]
  }

  lemma BehindGood(fs: Tree, root: Path, c: Config, tail: Path)
    requires Good(fs, root, c) && Going(c) && AllNames(tail)
    ensures Good(fs, root, Behind(c, tail)) && Behind(c, tail).remaining != []
  {
  }

  lemma AdvanceCarries(fs: Tree, root: Path, c: Config, tail: Path)
    requires Good(fs, root, c) && Going(c) && AllNames(tail)
    requires Advance(fs, root, c).Onward? && Going(Advance(fs, root, c).next)
    ensures Good(fs, root, Behind(c, tail))
    ensures Advance(fs, root, Behind(c, tail)) == Onward(Behind(Advance(fs, root, c).next, tail))
  {
    BehindGood(fs, root, c, tail);
    var part, rest := c.remaining[0], c.remaining[1..];
    var todo := c.remaining + tail;
    assert todo[0] == part && todo[1..] == rest + tail;
    var next := c.current + [part];
    if IsName(part) && next in fs && fs[next].Symlink? {
      JoinRestCarries(fs[next].target, rest, tail);
    }
  }

  lemma AfterOne(fs: Tree, root: Path, c: Config, n: nat)
    requires Good(fs, root, c) && c.remaining != [] && Advance(fs, root, c).Onward? && n > 0
    ensures After(fs, root, c, n) == After(fs, root, Advance(fs, root, c).next, n - 1)
  {
  }

  // With nothing but "." left the walk gets nowhere.
  lemma RunsDry(fs: Tree, root: Path, c: Config, n: nat)
    requires Good(fs, root, c) && !Going(c)
    ensures After(fs, root, c, n).Some? ==> !Going(After(fs, root, c, n).value)
  {
    if n > 1 && c.remaining == ["."] {
      assert After(fs, root, Advance(fs, root, c).next, n - 1).Some? ==> n - 1 == 0;
    }
  }

  // A whole stretch of the walk carries them along.
  lemma {:induction false} AfterCarries(fs: Tree, root: Path, c: Config, n: nat, tail: Path)
    requires Good(fs, root, c) && Going(c) && AllNames(tail)
    requires After(fs, root, c, n).Some? && Going(After(fs, root, c, n).value)
    ensures Good(fs, root, Behind(c, tail))
    ensures After(fs, root, Behind(c, tail), n) == Some(Behind(After(fs, root, c, n).value, tail))
    decreases n
  {
    BehindGood(fs, root, c, tail);
    if n > 0 {
      var next := Advance(fs, root, c).next;
      AfterOne(fs, root, c, n);
      if !Going(next) {
        RunsDry(fs, root, next, n - 1);
        assert false;
      } else {
        AdvanceCarries(fs, root, c, tail);
        AfterCarries(fs, root, next, n - 1, tail);
        AfterOne(fs, root, Behind(c, tail), n);
      }
    }
  }

  // Walking c comes back to c with `more` behind it.
  ghost predicate Recurs(fs: Tree, root: Path, c: Config, more: Path, n: nat)
    requires Good(fs, root, c)
  {
    Going(c) && AllNames(more) && n > 0 && After(fs, root, c, n) == Some(Behind(c, more))
  }

  lemma OneMoreRound(fs: Tree, root: Path, c: Config, more: Path, n: nat, rest: Path)
    requires Good(fs, root, c) && Recurs(fs, root, c, more, n) && AllNames(rest)
    ensures Good(fs, root, Behind(c, rest))
    ensures After(fs, root, Behind(c, rest), n) == Some(Behind(c, more + rest))
  {
    AfterCarries(fs, root, c, n, rest);
    assert c.remaining + more + rest == c.remaining + (more + rest);
  }

  // A symlink cycle: walking c comes back to c, perhaps with more behind it. Then every
  // path that begins with it is refused, whatever the budget.
  lemma {:induction false} GrowingCycleRefused(fs: Tree, root: Path, c: Config, more: Path, n: nat, rest: Path, budget: nat)
    requires Good(fs, root, c) && Recurs(fs, root, c, more, n) && AllNames(rest)
    ensures Good(fs, root, Behind(c, rest))
    ensures Walk(fs, root, Behind(c, rest), budget) == Failure(TooManyLinks)
    decreases budget
  {
    OneMoreRound(fs, root, c, more, n, rest);
    WalkContinues(fs, root, Behind(c, rest), n, budget);
    if budget >= n {
      GrowingCycleRefused(fs, root, c, more, n, more + rest, budget - n);
    }
  }

  // In particular a link through itself, like a -> a/b.
  lemma SelfLinkRefused(fs: Tree, root: Path, current: Path, name: string, link: string, more: Path, rest: Path, budget: nat)
    requires Grounded(fs, root, current) && IsName(name) && AllNames(more) && AllNames(rest)
    requires current + [name] in fs && fs[current + [name]] == Symlink(link)
    requires !IsAbs(link) && Clean(Split(link), false) == [name] + more
    ensures Good(fs, root, Config(current, [name] + rest))
    ensures Walk(fs, root, Config(current, [name] + rest), budget) == Failure(TooManyLinks)
  {
    var c, next := Config(current, [name]), Config(current, [name] + more);
    assert Split(link) + [] == Split(link);
    assert c.remaining[0] == name && c.remaining[1..] == [];
    assert Advance(fs, root, c) == Onward(next);
    assert After(fs, root, next, 0) == Some(next);
    var n := 1;
    AfterOne(fs, root, c, n);
    GrowingCycleRefused(fs, root, c, more, n, rest, budget);
  }

  // ----- The root "/" -----

  // Below "/" the walk can only ever answer with "/" itself or a path that does not exist:
  // whatever does exist is refused.
  lemma {:induction false} SlashRefusesExisting(fs: Tree, c: Config, budget: nat)
    requires StaticTree(fs, []) && Good(fs, [], c)
    ensures var r := Walk(fs, [], c, budget);
            && (r.Success? ==> r.value == [] || r.value !in fs)
            && (c.remaining == [] && c.current != [] ==> r == Failure(Escapes))
    decreases budget
  {
    if c.remaining == [] {
      IsWithinExact([], c.current);
    } else if budget > 0 {
      match Advance(fs, [], c) {
        case Arrived(path) =>
          MissingBelow(fs, [], c.current + [c.remaining[0]], path);
        case Onward(next) => SlashRefusesExisting(fs, next, budget - 1);
      }
    }
  }
}
