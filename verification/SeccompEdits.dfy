// Profile edits and the filters they compile to.
module SeccompEdits {

  import opened Wrappers
  import opened Bpf
  import opened Seccomp

  // Two accepted profiles whose filters no system call can tell apart.
  ghost predicate SameFilter(p: Profile, q: Profile, target: Target) {
    && Fault(q, target).None?
    && forall data :: Judge(Program(p, target), data) == Judge(Program(q, target), data)
  }

  lemma SameMeaningSameFilter(p: Profile, q: Profile, target: Target)
    requires Fault(p, target).None? && Fault(q, target).None?
    requires forall data :: Meaning(p, target, data) == Meaning(q, target, data)
    ensures SameFilter(p, q, target)
  {
    CompiledIsFaithful(p, target);
    CompiledIsFaithful(q, target);
  }

  lemma {:induction false} NoFaultMeansSound(rules: seq<Rule>, i: nat)
    requires i <= |rules|
    ensures RuleFault(rules, i).None? <==> forall j :: i <= j < |rules| ==> Sound(rules[j])
    decreases |rules| - i
  {
    if i < |rules| {
      NoFaultMeansSound(rules, i + 1);
    }
  }

  lemma {:induction false} ResolvedConcat(a: seq<string>, b: seq<string>, target: Target)
    ensures Resolved(a + b, target) == Resolved(a, target) + Resolved(b, target)
  {
    if b == [] {
      assert a + b == a;
    } else {
      assert (a + b)[..|a + b| - 1] == a + b[..|b| - 1];
      ResolvedConcat(a, b[..|b| - 1], target);
    }
  }

  lemma {:induction false} ResolvedInRulesConcat(a: seq<Rule>, b: seq<Rule>, target: Target)
    ensures ResolvedInRules(a + b, target) == ResolvedInRules(a, target) + ResolvedInRules(b, target)
  {
    if b == [] {
      assert a + b == a;
    } else {
      assert (a + b)[..|a + b| - 1] == a + b[..|b| - 1];
      ResolvedInRulesConcat(a, b[..|b| - 1], target);
    }
  }

  lemma ResolvedAround(front: seq<Rule>, r: Rule, back: seq<Rule>, target: Target)
    ensures ResolvedInRules(front + [r] + back, target) ==
            ResolvedInRules(front, target) + Resolved(r.names, target) + ResolvedInRules(back, target)
  {
    ResolvedInRulesConcat(front + [r], back, target);
    assert (front + [r])[..|front|] == front;
  }

  // ----- Deleting a name -----

  function DropName(r: Rule, j: nat): Rule
    requires j < |r.names|
  {
    r.(names := r.names[..j] + r.names[j + 1..])
  }

  function DropNameAt(p: Profile, i: nat, j: nat): Profile
    requires i < |p.syscalls| && j < |p.syscalls[i].names|
  {
    p.(syscalls := p.syscalls[i := DropName(p.syscalls[i], j)])
  }

  // The j-th name of rule i decides nothing: it does not exist on this architecture, or
  // its number is already decided by an earlier rule or by another name of the same rule.
  ghost predicate Redundant(p: Profile, target: Target, i: nat, j: nat)
    requires i < |p.syscalls| && j < |p.syscalls[i].names|
  {
    var name := p.syscalls[i].names[j];
    name in target.numbers ==>
      || Covers(DropName(p.syscalls[i], j), target, target.numbers[name])
      || exists k :: 0 <= k < i && Covers(p.syscalls[k], target, target.numbers[name])
  }

  lemma DropNameCovers(r: Rule, j: nat, target: Target, nr: Word)
    requires j < |r.names|
    ensures Covers(r, target, nr) <==>
              || Covers(DropName(r, j), target, nr)
              || (r.names[j] in target.numbers && target.numbers[r.names[j]] == nr)
  {
    assert r.names == r.names[..j] + [r.names[j]] + r.names[j + 1..];
  }

  lemma DropNameShrinks(p: Profile, target: Target, i: nat, j: nat)
    requires i < |p.syscalls| && j < |p.syscalls[i].names|
    ensures ProgramLength(DropNameAt(p, i, j), target) <= ProgramLength(p, target)
  {
    var rules, rule := p.syscalls, p.syscalls[i];
    var rule' := DropName(rule, j);
    assert rules == rules[..i] + [rule] + rules[i + 1..];
    assert rules[i := rule'] == rules[..i] + [rule'] + rules[i + 1..];
    ResolvedAround(rules[..i], rule, rules[i + 1..], target);
    ResolvedAround(rules[..i], rule', rules[i + 1..], target);
    assert rule.names == rule.names[..j] + ([rule.names[j]] + rule.names[j + 1..]);
    ResolvedConcat(rule.names[..j], [rule.names[j]] + rule.names[j + 1..], target);
    ResolvedConcat([rule.names[j]], rule.names[j + 1..], target);
    ResolvedConcat(rule.names[..j], rule.names[j + 1..], target);
  }

  // Deleting a name that decides nothing leaves an accepted profile accepted and its
  // filter's verdicts unchanged.
  lemma DeletingRedundantName(p: Profile, target: Target, i: nat, j: nat)
    requires Fault(p, target).None?
    requires i < |p.syscalls| && j < |p.syscalls[i].names| && Redundant(p, target, i, j)
    ensures SameFilter(p, DropNameAt(p, i, j), target)
  {
    var q := DropNameAt(p, i, j);
    NoFaultMeansSound(p.syscalls, 0);
    NoFaultMeansSound(q.syscalls, 0);
    DropNameShrinks(p, target, i, j);
    forall data ensures Meaning(p, target, data) == Meaning(q, target, data) {
      forall k | 0 <= k < |p.syscalls| && k != i
        ensures Covers(q.syscalls[k], target, data.nr) == Covers(p.syscalls[k], target, data.nr)
      {
      }
      DropNameCovers(p.syscalls[i], j, target, data.nr);
      var f, g := FirstRule(p.syscalls, target, data.nr), FirstRule(q.syscalls, target, data.nr);
      if f.Some? && f.value < i {
        assert forall k :: 0 <= k <= f.value ==> Covers(q.syscalls[k], target, data.nr) == Covers(p.syscalls[k], target, data.nr);
        assert f == g;
      } else {
        assert Covers(q.syscalls[i], target, data.nr) == Covers(p.syscalls[i], target, data.nr);
        assert f == g;
      }
    }
    SameMeaningSameFilter(p, q, target);
  }

  // ----- Swapping neighbours -----

  function SwapAt(p: Profile, i: nat): Profile
    requires i + 1 < |p.syscalls|
  {
    p.(syscalls := p.syscalls[i := p.syscalls[i + 1]][i + 1 := p.syscalls[i]])
  }

  // A system call that reaches rules i and i+1 undecided and matches both.
  ghost predicate Contested(p: Profile, target: Target, i: nat, nr: Word)
    requires i + 1 < |p.syscalls|
  {
    && !(target.guardX32 && nr >= X32_SYSCALL_BIT)
    && Covers(p.syscalls[i], target, nr) && Covers(p.syscalls[i + 1], target, nr)
    && forall k :: 0 <= k < i ==> !Covers(p.syscalls[k], target, nr)
  }

  function Effect(r: Rule): Disposition {
    Intended(r.action, r.errnoRet)
  }

  lemma SwapAccepted(p: Profile, target: Target, i: nat)
    requires Fault(p, target).None? && i + 1 < |p.syscalls|
    ensures Fault(SwapAt(p, i), target).None?
  {
    var rules, q := p.syscalls, SwapAt(p, i);
    NoFaultMeansSound(rules, 0);
    NoFaultMeansSound(q.syscalls, 0);
    var a, b := rules[i], rules[i + 1];
    assert rules == rules[..i] + [a] + [b] + rules[i + 2..];
    assert q.syscalls == rules[..i] + [b] + [a] + rules[i + 2..];
    ResolvedInRulesConcat(rules[..i] + [a] + [b], rules[i + 2..], target);
    ResolvedInRulesConcat(rules[..i] + [a], [b], target);
    ResolvedInRulesConcat(rules[..i], [a], target);
    ResolvedInRulesConcat(rules[..i] + [b] + [a], rules[i + 2..], target);
    ResolvedInRulesConcat(rules[..i] + [b], [a], target);
    ResolvedInRulesConcat(rules[..i], [b], target);
  }

  lemma SwappedCovers(p: Profile, target: Target, i: nat, nr: Word)
    requires i + 1 < |p.syscalls|
    ensures var q := SwapAt(p, i);
            && Covers(q.syscalls[i], target, nr) == Covers(p.syscalls[i + 1], target, nr)
            && Covers(q.syscalls[i + 1], target, nr) == Covers(p.syscalls[i], target, nr)
            && forall k :: 0 <= k < |p.syscalls| && k != i && k != i + 1 ==>
                 Covers(q.syscalls[k], target, nr) == Covers(p.syscalls[k], target, nr)
  {
  }

  lemma SwapMeaning(p: Profile, target: Target, i: nat, data: SeccompData)
    requires i + 1 < |p.syscalls|
    ensures Meaning(p, target, data) == Meaning(SwapAt(p, i), target, data) <==>
            (data.arch == target.auditArch && Contested(p, target, i, data.nr) ==>
               Effect(p.syscalls[i]) == Effect(p.syscalls[i + 1]))
  {
    var q := SwapAt(p, i);
    SwappedCovers(p, target, i, data.nr);
    var f, g := FirstRule(p.syscalls, target, data.nr), FirstRule(q.syscalls, target, data.nr);
    if Contested(p, target, i, data.nr) {
      assert f == Some(i) && g == Some(i);
    } else if f.Some? && f.value == i && !Covers(p.syscalls[i + 1], target, data.nr) {
      assert g == Some(i + 1);
    } else if f.Some? && f.value == i + 1 {
      assert g == Some(i);
    }
  }

  // Swapping neighbouring rules changes no verdict exactly when they have the same effect
  // on every number both match and nothing before them decides. Rules with disjoint
  // number sets are the case with no such number.
  lemma SwappingNeighbours(p: Profile, target: Target, i: nat)
    requires Fault(p, target).None? && i + 1 < |p.syscalls|
    ensures SameFilter(p, SwapAt(p, i), target) <==>
            forall nr :: Contested(p, target, i, nr) ==> Effect(p.syscalls[i]) == Effect(p.syscalls[i + 1])
  {
    var q := SwapAt(p, i);
    SwapAccepted(p, target, i);
    CompiledIsFaithful(p, target);
    CompiledIsFaithful(q, target);
    if nr: Word :| Contested(p, target, i, nr) && Effect(p.syscalls[i]) != Effect(p.syscalls[i + 1]) {
      var data := SeccompData(nr, target.auditArch);
      SwapMeaning(p, target, i, data);
      assert Judge(Program(p, target), data) != Judge(Program(q, target), data);
    } else {
      forall data ensures Meaning(p, target, data) == Meaning(q, target, data) {
        SwapMeaning(p, target, i, data);
      }
      SameMeaningSameFilter(p, q, target);
    }
  }
}
