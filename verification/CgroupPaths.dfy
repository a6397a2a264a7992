// Where a container's cgroup goes: containerCgroupPath of pkg/runtime/cgroups.go and the
// id check of pkg/state/store.go it leans on.
module CgroupPaths {

  import opened Wrappers
  import opened Paths

  datatype IdError = EmptyId | HasSeparator

  function ValidateID(id: string): Option<IdError> {
    if id == "" then Some(EmptyId)
    else if id == "." || id == ".." || '/' in id || '\\' in id || '\0' in id then Some(HasSeparator)
    else None
  }

  datatype PathError = Escapes | IsRoot

  // systemd's "slice:prefix:name" flattened into one name.
  function Flatten(custom: string): (r: string)
    ensures |r| == |custom|
    ensures forall i :: 0 <= i < |custom| ==> r[i] == if custom[i] == ':' then '-' else custom[i]
  {
    seq(|custom|, i requires 0 <= i < |custom| => if custom[i] == ':' then '-' else custom[i])
  }

  function TrimSlash(s: string): string {
    if s != "" && s[0] == '/' then s[1..] else s
  }

  // `custom` is linux.cgroupsPath, "" when the spec has none.
  function ContainerCgroupPath(root: Path, id: string, custom: string): Result<Path, PathError> {
    if custom == "" then Success(Clean(root + ["lightpod"] + Split(id), true))
    else
      var path := JoinUnder(root, TrimSlash(Flatten(custom)));
      if !IsWithin(Render(root), Render(path)) then Failure(Escapes)
      else if path == root then Failure(IsRoot)
      else Success(path)
  }

  // The default path is exactly <root>/lightpod/<id>.
  lemma DefaultPath(root: Path, id: string)
    requires AllNames(root) && ValidateID(id).None?
    ensures ContainerCgroupPath(root, id, "") == Success(root + ["lightpod", id])
  {
    SplitName(id);
    assert root + ["lightpod"] + [id] == root + ["lightpod", id];
    assert AllNames(root + ["lightpod", id]);
    CleanNames(root + ["lightpod", id], true);
  }

  // Two containers with different accepted ids get sibling cgroups strictly below the
  // root, neither inside the other.
  lemma DefaultPathsApart(root: Path, a: string, b: string)
    requires AllNames(root) && ValidateID(a).None? && ValidateID(b).None? && a != b
    ensures var p, q := ContainerCgroupPath(root, a, "").value, ContainerCgroupPath(root, b, "").value;
            && root < p && root < q && !(p <= q) && !(q <= p)
            && !IsWithin(Render(p), Render(q)) && !IsWithin(Render(q), Render(p))
  {
    DefaultPath(root, a);
    DefaultPath(root, b);
    var p, q := root + ["lightpod", a], root + ["lightpod", b];
    assert p[|root| + 1] == a && q[|root| + 1] == b;
    IsWithinExact(p, q);
    IsWithinExact(q, p);
  }

  // The leading slash of a custom path makes no difference.
  lemma TrimmedAlike(root: Path, custom: string)
    ensures Clean(root + Split(TrimSlash(custom)), true) == Clean(root + Split(custom), true)
  {
    if custom != "" && custom[0] == '/' {
      var rest := Split(custom[1..]);
      CleanSkips(root, "", rest, true);
      assert root + [""] + rest == root + Split(custom);
    }
  }

  lemma TrimmedSurvivors(root: Path, custom: string)
    requires AllNames(root)
    ensures JoinUnder(root, TrimSlash(custom)) == Above(root, Rise(Split(custom))) + Survivors(Split(custom))
  {
    TrimmedAlike(root, custom);
    var parts := Split(custom);
    CleanBelow(root, parts);
    CleanIsSurvivors(parts);
  }

  // A custom path goes up from the root as far as it rises and then down its surviving
  // names. It is accepted exactly when that ends strictly below a root other than "/",
  // refused as the root when it ends there, and as an escape otherwise.
  lemma CustomPathExact(root: Path, id: string, custom: string)
    requires AllNames(root) && custom != ""
    ensures var parts, r := Split(Flatten(custom)), ContainerCgroupPath(root, id, custom);
            var path := Above(root, Rise(parts)) + Survivors(parts);
            r == if path == root then Failure(IsRoot)
                 else if root != [] && root < path then Success(path)
                 else Failure(Escapes)
  {
    var relative := TrimSlash(Flatten(custom));
    TrimmedSurvivors(root, Flatten(custom));
    CleanShape(root + Split(relative), true);
    IsWithinExact(root, JoinUnder(root, relative));
  }

  // By counting alone: a custom path that never rises above the root is accepted as soon as
  // it leads down, and one that rises and does not lead down again past where it started is
  // refused.
  lemma CustomPathByDepth(root: Path, id: string, custom: string)
    requires AllNames(root) && custom != "" && root != []
    ensures var parts, r := Split(Flatten(custom)), ContainerCgroupPath(root, id, custom);
            && (Rise(parts) == 0 ==> r == if Net(parts) > 0 then Success(root + Survivors(parts)) else Failure(IsRoot))
            && (Rise(parts) <= |root| && Net(parts) <= 0 ==> r.Failure?)
            && (0 < Rise(parts) <= |root| && Net(parts) < 0 ==> r == Failure(Escapes))
  {
    var parts := Split(Flatten(custom));
    CustomPathExact(root, id, custom);
    SurvivorsByDepth(parts);
    if Rise(parts) == 0 {
      assert Above(root, 0) == root;
    }
  }

  lemma SurvivorsByDepth(parts: seq<string>)
    ensures |Survivors(parts)| == Net(parts) + Rise(parts)
  {
    CleanIsSurvivors(parts);
    CleanLength(parts);
  }

  // An id is accepted exactly when joining it to a directory gives an entry of that name
  // and it has no backslash or NUL; the empty one has an error of its own.
  lemma ValidIdExact(root: Path, id: string)
    requires AllNames(root)
    ensures ValidateID(id).None? <==> JoinUnder(root, id) == root + [id] && '\\' !in id && '\0' !in id
    ensures ValidateID(id) == Some(EmptyId) <==> id == ""
  {
    var parts := Split(id);
    CleanShape(root + parts, true);
    if '/' !in id {
      SplitName(id);
      CleanBelow(root, [id]);
      CleanIsSurvivors([id]);
    }
    if JoinUnder(root, id) == root + [id] {
      assert (root + [id])[|root|] == id;
      assert IsName(id);
    }
    if IsName(id) {
      assert AllNames(root + [id]);
      CleanNames(root + [id], true);
    }
  }
}
