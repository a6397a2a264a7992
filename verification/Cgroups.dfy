// Controller delegation of pkg/runtime/cgroups.go, run against the cgroup v2 "Top-down
// Constraint".
module Cgroups {

  import opened Wrappers
  import opened Paths

  // The controllers the runtime delegates.
  const DELEGATED: set<string> := {"memory", "pids", "cpu", "cpuset", "io"}

  function Dir(p: Path): Path
    requires p != []
  {
    p[..|p| - 1]
  }

  // The directories from the root down to the leaf's parent.
  function Chain(root: Path, leaf: Path): seq<Path>
    requires root < leaf
  {
    seq(|leaf| - |root|, i requires 0 <= i < |leaf| - |root| => leaf[..|root| + i])
  }

  // The next directory of the chain lies in the one before.
  lemma ChainStep(root: Path, leaf: Path, i: nat)
    requires root < leaf && i + 1 < |leaf| - |root|
    ensures var chain := Chain(root, leaf);
            && chain[i] + [leaf[|root| + i]] == chain[i + 1] && Dir(chain[i + 1]) == chain[i]
            && root < chain[i + 1] < leaf && chain[i + 1] in chain
            && chain[1..i + 2] == chain[1..i + 1] + [chain[i + 1]]
  {
    assert leaf[..|root| + i + 1][..|root| + i] == leaf[..|root| + i];
  }

  lemma ChainStarts(root: Path, leaf: Path)
    requires root < leaf
    ensures Chain(root, leaf)[0] == root && [root] + Chain(root, leaf)[1..] == Chain(root, leaf)
    ensures Chain(root, leaf)[1..1] == []
  {
    assert leaf[..|root|] == root;
  }

  lemma ChainEnds(root: Path, leaf: Path, i: nat)
    requires root < leaf && i + 1 == |leaf| - |root|
    ensures Chain(root, leaf)[i] == Dir(leaf) && Chain(root, leaf)[1..i + 1] == Chain(root, leaf)[1..]
  {
  }

  // cgroup.controllers of d: what its parent passes down, where the root has `available`.
  function Handed(root: Path, available: set<string>, subtree: map<Path, set<string>>, d: Path): set<string> {
    if d == root then available
    else if d != [] && Dir(d) in subtree then subtree[Dir(d)]
    else {}
  }

  // A cgroup passes down only what it was given.
  ghost predicate Sound(root: Path, available: set<string>, subtree: map<Path, set<string>>) {
    && (forall d :: d in subtree ==> root <= d)
    && (forall d :: d in subtree ==> subtree[d] <= Handed(root, available, subtree, d))
  }

  lemma EnableKeepsSound(root: Path, available: set<string>, subtree: map<Path, set<string>>, d: Path, enable: set<string>)
    requires Sound(root, available, subtree) && root <= d && enable <= Handed(root, available, subtree, d)
    ensures Sound(root, available, subtree[d := (if d in subtree then subtree[d] else {}) + enable])
  {
    var after := subtree[d := (if d in subtree then subtree[d] else {}) + enable];
    forall c | c in after ensures after[c] <= Handed(root, available, after, c) {
      assert Handed(root, available, subtree, c) <= Handed(root, available, after, c);
    }
  }

  predicate PassesDown(subtree: map<Path, set<string>>, d: Path, wanted: set<string>) {
    d in subtree && wanted <= subtree[d]
  }

  // No directory appears but those above the leaf.
  predicate GrownAbove(before: set<Path>, now: set<Path>, leaf: Path) {
    forall c :: c in now ==> c in before || c < leaf
  }

  // A cgroup v2 hierarchy below `root`, whose own controllers are `available`. A directory
  // in `refusing` ignores writes to its subtree_control (it holds processes, or is not
  // ours); one in `unmakeable` cannot be created.
  class Hierarchy {
    const root: Path
    const available: set<string>
    const refusing: set<Path>
    const unmakeable: set<Path>
    var dirs: set<Path>
    var subtree: map<Path, set<string>>
    ghost var writes: seq<Path>

    function Controllers(d: Path): set<string>
      reads this
    {
      Handed(root, available, subtree, d)
    }

    ghost predicate TopDown()
      reads this
    {
      Sound(root, available, subtree)
    }

    method MakeDirs(d: Path) returns (ok: bool)
      requires TopDown()
      modifies this`dirs
      ensures TopDown()
      ensures ok <==> d in old(dirs) || d !in unmakeable
      ensures dirs == if ok then old(dirs) + {d} else old(dirs)
    {
      if d !in dirs && d in unmakeable {
        return false;
      }
      dirs := dirs + {d};
      return true;
    }

    // A write of "+a +b ..." takes effect as a whole or not at all.
    method WriteSubtreeControl(d: Path, enable: set<string>)
      requires TopDown() && root <= d
      modifies this`subtree, this`writes
      ensures TopDown()
      ensures writes == old(writes) + [d]
      ensures var before := if d in old(subtree) then old(subtree)[d] else {};
              subtree == if enable <= old(Controllers(d)) && d !in refusing
                         then old(subtree)[d := before + enable] else old(subtree)
    {
      writes := writes + [d];
      if enable <= Controllers(d) && d !in refusing {
        EnableKeepsSound(root, available, subtree, d, enable);
        var before := if d in subtree then subtree[d] else {};
        subtree := subtree[d := before + enable];
      }
    }

    // rmdir, which fails on a cgroup with children.
    method Remove(d: Path)
      modifies this`dirs
      ensures dirs == if exists c :: c in old(dirs) && c != [] && Dir(c) == d then old(dirs) else old(dirs) - {d}
    {
      if !exists c :: c in dirs && c != [] && Dir(c) == d {
        dirs := dirs - {d};
      }
    }

    // Nothing can be had anywhere that the root does not have.
    lemma {:induction false} OnlyWhatIsAvailable(d: Path)
      requires TopDown()
      ensures Controllers(d) <= available
      decreases |d|
    {
      if d != root && d != [] && Dir(d) in subtree {
        OnlyWhatIsAvailable(Dir(d));
      }
    }
  }

  datatype CgroupError = CannotMake(dir: Path) | MissingControllers(missing: set<string>)

  // Whether the subtree_control write takes effect at every directory of the chain.
  predicate AllTake(root: Path, leaf: Path, refusing: set<Path>)
    requires root < leaf
  {
    forall d :: d in Chain(root, leaf) ==> d !in refusing
  }

  // The root's own level, which comes round twice when it is the leaf's parent.
  method DelegateAtRoot(h: Hierarchy, wanted: set<string>, twice: bool)
    requires h.TopDown() && wanted <= h.available
    modifies h`subtree, h`writes
    ensures h.TopDown()
    ensures h.writes == old(h.writes) + (if twice then [h.root] else []) + [h.root]
    ensures h.root !in h.refusing ==> PassesDown(h.subtree, h.root, wanted)
  {
    if twice {
      h.WriteSubtreeControl(h.root, wanted);
    }
    h.WriteSubtreeControl(h.root, wanted);
  }

  // One more level: make the directory, then delegate at it.
  method DelegateAt(h: Hierarchy, dir: Path, wanted: set<string>) returns (made: bool)
    requires h.TopDown() && h.root < dir
    modifies h`dirs, h`subtree, h`writes
    ensures h.TopDown()
    ensures made <==> dir in old(h.dirs) || dir !in h.unmakeable
    ensures h.dirs == if made then old(h.dirs) + {dir} else old(h.dirs)
    ensures h.writes == if made then old(h.writes) + [dir] else old(h.writes)
    ensures made && dir !in h.refusing && PassesDown(old(h.subtree), Dir(dir), wanted) ==> PassesDown(h.subtree, dir, wanted)
  {
    made := h.MakeDirs(dir);
    if made {
      h.WriteSubtreeControl(dir, wanted);
    }
  }

  // The i-th turn of the loop below the root.
  method DelegateNext(h: Hierarchy, leaf: Path, i: nat, dir: Path, wanted: set<string>) returns (next: Path, made: bool)
    requires h.TopDown() && h.root < leaf && i + 1 < |leaf| - |h.root| && dir == Chain(h.root, leaf)[i]
    modifies h`dirs, h`subtree, h`writes
    ensures h.TopDown()
    ensures var chain := Chain(h.root, leaf);
            next == chain[i + 1] && h.root < next < leaf && chain[1..i + 2] == chain[1..i + 1] + [next]
    ensures !made ==> next in h.unmakeable
    ensures made ==> h.writes == old(h.writes) + [next]
    ensures made && next !in h.refusing && PassesDown(old(h.subtree), dir, wanted) ==> PassesDown(h.subtree, next, wanted)
    ensures GrownAbove(old(h.dirs), h.dirs, leaf)
  {
    ChainStep(h.root, leaf, i);
    next := dir + [leaf[|h.root| + i]];
    made := DelegateAt(h, next, wanted);
  }

  // The loop below the root.
  method DelegateDown(h: Hierarchy, leaf: Path, wanted: set<string>) returns (r: Result<(), CgroupError>)
    requires h.TopDown() && h.root < leaf
    requires h.root !in h.refusing ==> PassesDown(h.subtree, h.root, wanted)
    modifies h`dirs, h`subtree, h`writes
    ensures h.TopDown()
    ensures r.Success? ==> h.writes == old(h.writes) + Chain(h.root, leaf)[1..]
    ensures r.Success? && AllTake(h.root, leaf, h.refusing) ==> PassesDown(h.subtree, Dir(leaf), wanted)
    ensures r.Failure? ==> r.error.CannotMake? && r.error.dir in h.unmakeable && h.root < r.error.dir < leaf
    ensures GrownAbove(old(h.dirs), h.dirs, leaf)
  {
    ghost var allTake := AllTake(h.root, leaf, h.refusing);
    ghost var visited: seq<Path> := [];
    var dir := h.root;
    ChainStarts(h.root, leaf);
    var i := 0;
    while i + 1 < |leaf| - |h.root|
      invariant 0 <= i < |leaf| - |h.root|
      invariant h.TopDown()
      invariant dir == Chain(h.root, leaf)[i]
      invariant visited == Chain(h.root, leaf)[1..i + 1]
      invariant h.writes == old(h.writes) + visited
      invariant allTake ==> PassesDown(h.subtree, dir, wanted)
      invariant GrownAbove(old(h.dirs), h.dirs, leaf)
    {
      var made;
      dir, made := DelegateNext(h, leaf, i, dir, wanted);
      if !made {
        return Failure(CannotMake(dir));
      }
      visited := visited + [dir];
      i := i + 1;
    }
    ChainEnds(h.root, leaf, i);
    return Success(());
  }

  // Visits exactly the chain from the root to the leaf's parent, top down (the root twice
  // when it is that parent, because a relative path of "." adds a second "."). If every
  // write takes effect, everything wanted reaches the leaf.
  method EnableControllers(h: Hierarchy, leaf: Path) returns (r: Result<(), CgroupError>)
    requires h.TopDown() && h.root < leaf
    modifies h`dirs, h`subtree, h`writes
    ensures h.TopDown()
    ensures r.Success? && h.available * DELEGATED == {} ==> h.writes == old(h.writes)
    ensures r.Success? && h.available * DELEGATED != {} ==>
              h.writes == old(h.writes) + (if Dir(leaf) == h.root then [h.root] else []) + Chain(h.root, leaf)
    ensures r.Success? && AllTake(h.root, leaf, h.refusing) ==>
              h.available * {"memory", "pids", "cpu", "cpuset", "io"} <= h.Controllers(leaf)
    ensures r.Failure? ==> r.error.CannotMake? && r.error.dir in h.unmakeable && h.root < r.error.dir < leaf
    ensures GrownAbove(old(h.dirs), h.dirs, leaf)
  {
    var wanted := h.available * DELEGATED;
    if wanted == {} {
      return Success(());
    }
    DelegateAtRoot(h, wanted, Dir(leaf) == h.root);
    ChainStarts(h.root, leaf);
    r := DelegateDown(h, leaf, wanted);
  }

  // Which limits the spec sets.
  datatype Limits = Limits(memory: bool, cpu: bool, pids: bool)

  function Needed(limits: Limits): set<string> {
    (if limits.memory then {"memory"} else {}) + (if limits.cpu then {"cpu"} else {}) + (if limits.pids then {"pids"} else {})
  }

  // Every limit that is set has its controller.
  predicate Enforceable(limits: Limits, controllers: set<string>) {
    && (limits.memory ==> "memory" in controllers)
    && (limits.cpu ==> "cpu" in controllers)
    && (limits.pids ==> "pids" in controllers)
  }

  // Whatever was ignored on the way, success means that every limit can be enforced in the
  // leaf; a leaf where one cannot is taken away again, unless it has children already. If
  // nothing was ignored, only a directory that cannot be made stands in the way of limits
  // that the root can enforce.
  method NewCgroup(h: Hierarchy, leaf: Path, limits: Limits) returns (r: Result<(), CgroupError>)
    requires h.TopDown() && h.root < leaf
    modifies h`dirs, h`subtree, h`writes
    ensures h.TopDown()
    ensures r.Success? ==>
              leaf in h.dirs && Enforceable(limits, h.Controllers(leaf)) && Enforceable(limits, h.available)
    ensures r.Failure? && r.error.MissingControllers? ==>
              && !Enforceable(limits, h.Controllers(leaf))
              && r.error.missing == Needed(limits) - h.Controllers(leaf)
              && (leaf in h.dirs ==> exists c :: c in old(h.dirs) && c != [] && Dir(c) == leaf)
    ensures r.Failure? && r.error.CannotMake? ==> r.error.dir in h.unmakeable && h.root < r.error.dir <= leaf
    ensures AllTake(h.root, leaf, h.refusing) && Enforceable(limits, h.available) ==> r.Success? || r.error.CannotMake?
  {
    r := EnableControllers(h, leaf);
    if r.Failure? {
      return;
    }
    var made := h.MakeDirs(leaf);
    if !made {
      return Failure(CannotMake(leaf));
    }
    h.OnlyWhatIsAvailable(leaf);
    var missing := Needed(limits) - h.Controllers(leaf);
    assert missing == {} <==> Enforceable(limits, h.Controllers(leaf)) by {
      NeededExact(limits, h.Controllers(leaf));
    }
    if missing != {} {
      h.Remove(leaf);
      return Failure(MissingControllers(missing));
    }
    return Success(());
  }

  lemma NeededExact(limits: Limits, controllers: set<string>)
    ensures Needed(limits) - controllers == {} <==> Enforceable(limits, controllers)
  {
    if limits.memory && "memory" !in controllers {
      assert "memory" in Needed(limits) - controllers;
    }
    if limits.cpu && "cpu" !in controllers {
      assert "cpu" in Needed(limits) - controllers;
    }
    if limits.pids && "pids" !in controllers {
      assert "pids" in Needed(limits) - controllers;
    }
  }
}
