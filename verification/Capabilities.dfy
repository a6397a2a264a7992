// The capability reduction of pkg/security/capabilities.go, run against the rules of
// capabilities(7).
module Capabilities {

  import opened Wrappers
  import opened CapMask

  // ----- Parsing -----

  function UpperChar(c: char): char {
    if 'a' <= c <= 'z' then c - 'a' + 'A' else c
  }

  function ToUpper(s: string): string {
    seq(|s|, i requires 0 <= i < |s| => UpperChar(s[i]))
  }

  // The table of capability names.
  type Names = m: map<string, nat> | forall name :: name in m ==> m[name] < 64

  predicate SameLetter(a: char, b: char) {
    || a == b
    || ('a' <= a <= 'z' && 'A' <= b <= 'Z' && a - b == 'a' - 'A')
    || ('A' <= a <= 'Z' && 'a' <= b <= 'z' && b - a == 'a' - 'A')
  }

  predicate SameButCase(a: string, b: string) {
    |a| == |b| && forall i :: 0 <= i < |a| ==> SameLetter(a[i], b[i])
  }

  predicate NoLower(s: string) {
    forall i :: 0 <= i < |s| ==> !('a' <= s[i] <= 'z')
  }

  // A name is known when an upper-case entry of the table differs from it only by case.
  predicate Entry(table: Names, name: string, key: string) {
    key in table && NoLower(key) && SameButCase(name, key)
  }

  predicate Known(table: Names, name: string) {
    exists key :: key in table && Entry(table, name, key)
  }

  // What a list of names asks for.
  function Asked(names: seq<string>, table: Names): set<nat> {
    set name, key | name in names && key in table && Entry(table, name, key) :: table[key]
  }

  lemma UpperExact(name: string, key: string)
    ensures ToUpper(name) == key <==> NoLower(key) && SameButCase(name, key)
  {
    var upper := ToUpper(name);
    if SameButCase(name, key) && NoLower(key) {
      forall i | 0 <= i < |name| ensures upper[i] == key[i] {
        assert SameLetter(name[i], key[i]);
      }
    }
    forall i | 0 <= i < |name| ensures SameLetter(name[i], upper[i]) && !('a' <= upper[i] <= 'z') {
      UpperLetter(name[i]);
    }
  }

  lemma UpperLetter(c: char)
    ensures SameLetter(c, UpperChar(c)) && !('a' <= UpperChar(c) <= 'z')
  {
  }

  // The entry of a name is the one its upper-case form finds.
  lemma EntryByUpper(table: Names, name: string)
    ensures forall key :: Entry(table, name, key) <==> key in table && key == ToUpper(name)
    ensures Known(table, name) <==> ToUpper(name) in table
  {
    forall key ensures Entry(table, name, key) <==> key in table && key == ToUpper(name) {
      UpperExact(name, key);
    }
    if ToUpper(name) in table {
      assert Entry(table, name, ToUpper(name));
    }
  }

  lemma AskedMore(names: seq<string>, name: string, table: Names)
    requires ToUpper(name) in table
    ensures Asked(names + [name], table) == Asked(names, table) + {table[ToUpper(name)]}
  {
    EntryByUpper(table, name);
    assert Entry(table, name, ToUpper(name));
    assert name in names + [name];
  }

  // Upper-case names of the table ask for exactly their own entries.
  lemma PlainNames(names: seq<string>, table: Names)
    requires forall name :: name in names ==> name in table && NoLower(name)
    ensures forall name :: name in names ==> Known(table, name)
    ensures Asked(names, table) == set name | name in names :: table[name]
  {
    forall name, key | name in names && Entry(table, name, key) ensures key == name {
      UpperExact(name, key);
      UpperExact(name, name);
    }
    forall name | name in names ensures Entry(table, name, name) {
    }
  }

  // Two names share an entry exactly when they differ only by case.
  lemma OneEntry(a: string, b: string)
    ensures ToUpper(a) == ToUpper(b) <==> SameButCase(a, b)
  {
    forall i | 0 <= i < |a| && |a| == |b| ensures UpperChar(a[i]) == UpperChar(b[i]) <==> SameLetter(a[i], b[i]) {
    }
    if SameButCase(a, b) {
      assert forall i :: 0 <= i < |a| ==> ToUpper(a)[i] == ToUpper(b)[i];
    }
    if ToUpper(a) == ToUpper(b) {
      assert |a| == |ToUpper(a)| == |b|;
      forall i | 0 <= i < |a| ensures SameLetter(a[i], b[i]) {
        assert ToUpper(a)[i] == ToUpper(b)[i];
      }
    }
  }

  // So the case of names never matters: lists that differ only by it are parsed alike.
  lemma CaseMakesNoDifference(xs: seq<string>, ys: seq<string>, table: Names)
    requires |xs| == |ys| && forall i :: 0 <= i < |xs| ==> SameButCase(xs[i], ys[i])
    ensures forall i :: 0 <= i < |xs| ==> (Known(table, xs[i]) <==> Known(table, ys[i]))
    ensures Asked(xs, table) == Asked(ys, table)
  {
    forall i | 0 <= i < |xs|
      ensures Known(table, xs[i]) <==> Known(table, ys[i])
      ensures forall key :: Entry(table, xs[i], key) <==> Entry(table, ys[i], key)
    {
      OneEntry(xs[i], ys[i]);
      EntryByUpper(table, xs[i]);
      EntryByUpper(table, ys[i]);
    }
    AskedAlike(xs, ys, table);
    AskedAlike(ys, xs, table);
  }

  lemma AskedAlike(xs: seq<string>, ys: seq<string>, table: Names)
    requires |xs| == |ys|
    requires forall i, key :: 0 <= i < |xs| ==> (Entry(table, xs[i], key) <==> Entry(table, ys[i], key))
    ensures Asked(xs, table) <= Asked(ys, table)
  {
    forall b | b in Asked(xs, table) ensures b in Asked(ys, table) {
      var name, key :| name in xs && key in table && Entry(table, name, key) && table[key] == b;
      var i :| 0 <= i < |xs| && xs[i] == name;
      assert ys[i] in ys && Entry(table, ys[i], key);
    }
  }

  // Names to mask. The first unknown name is an error.
  method ParseCapabilities(names: seq<string>, table: Names) returns (r: Result<CapSet, string>)
    ensures r.Success? <==> forall name :: name in names ==> Known(table, name)
    ensures r.Success? ==> Bits(r.value) == Asked(names, table)
    ensures r.Failure? ==>
              exists i :: 0 <= i < |names| && r.error == names[i] && !Known(table, names[i])
                          && forall j :: 0 <= j < i ==> Known(table, names[j])
  {
    var mask: CapSet := 0;
    BitsEmpty();
    var i := 0;
    while i < |names|
      invariant 0 <= i <= |names|
      invariant forall j :: 0 <= j < i ==> Known(table, names[j])
      invariant Bits(mask) == Asked(names[..i], table)
    {
      var name := ToUpper(names[i]);
      EntryByUpper(table, names[i]);
      if name !in table {
        assert names[i] in names && !Known(table, names[i]);
        return Failure(names[i]);
      }
      BitsAdd(mask, table[name]);
      AskedMore(names[..i], names[i], table);
      assert names[..i + 1] == names[..i] + [names[i]];
      mask := Add(mask, table[name]);
      i := i + 1;
    }
    assert names[..i] == names;
    return Success(mask);
  }

  // The spec's capability section and the masks it parses to.
  datatype SpecCaps = SpecCaps(bounding: seq<string>, effective: seq<string>, permitted: seq<string>,
                               inheritable: seq<string>, ambient: seq<string>)

  datatype Policy = Policy(bounding: CapSet, effective: CapSet, permitted: CapSet, inheritable: CapSet, ambient: CapSet)

  predicate AllKnown(caps: SpecCaps, table: Names) {
    forall name :: name in caps.bounding + caps.effective + caps.permitted + caps.inheritable + caps.ambient ==>
      Known(table, name)
  }

  predicate Means(p: Policy, caps: SpecCaps, table: Names) {
    && Bits(p.bounding) == Asked(caps.bounding, table)
    && Bits(p.effective) == Asked(caps.effective, table)
    && Bits(p.permitted) == Asked(caps.permitted, table)
    && Bits(p.inheritable) == Asked(caps.inheritable, table)
    && Bits(p.ambient) == Asked(caps.ambient, table)
  }

  // No section asks for five empty sets.
  function Section(caps: Option<SpecCaps>): SpecCaps {
    if caps.Some? then caps.value else SpecCaps([], [], [], [], [])
  }

  // Every section parses to what it asks for; an unknown name anywhere is an error.
  method ResolveCapabilities(caps: Option<SpecCaps>, table: Names) returns (r: Result<Policy, string>)
    ensures caps.None? ==> r == Success(Policy(0, 0, 0, 0, 0))
    ensures r.Success? <==> AllKnown(Section(caps), table)
    ensures r.Success? ==> Means(r.value, Section(caps), table)
  {
    BitsEmpty();
    if caps.None? {
      return Success(Policy(0, 0, 0, 0, 0));
    }
    var bounding := ParseCapabilities(caps.value.bounding, table);
    if bounding.Failure? { return Failure(bounding.error); }
    var effective := ParseCapabilities(caps.value.effective, table);
    if effective.Failure? { return Failure(effective.error); }
    var permitted := ParseCapabilities(caps.value.permitted, table);
    if permitted.Failure? { return Failure(permitted.error); }
    var inheritable := ParseCapabilities(caps.value.inheritable, table);
    if inheritable.Failure? { return Failure(inheritable.error); }
    var ambient := ParseCapabilities(caps.value.ambient, table);
    if ambient.Failure? { return Failure(ambient.error); }
    return Success(Policy(bounding.value, effective.value, permitted.value, inheritable.value, ambient.value));
  }

  // ----- The kernel's side -----

  const CAP_SETPCAP := 8

  datatype Errno = Ok | EPERM | EINVAL

  // The part of a request the kernel has capabilities for.
  function Cut(bits: set<nat>, last: nat): set<nat> {
    set b | b in bits && b <= last
  }

  // What capset(2) demands of new effective, permitted and inheritable sets.
  predicate CapsetAllowed(e: set<nat>, p: set<nat>, i: set<nat>,
                          effective: set<nat>, permitted: set<nat>, inheritable: set<nat>, bounding: set<nat>) {
    && (CAP_SETPCAP in effective || i <= inheritable + permitted)
    && i <= inheritable + bounding
    && p <= permitted
    && e <= p
  }

  // The capability state of the process. lastCap is the highest capability the kernel
  // knows; ambientLocked is the secure bit that forbids raising ambient capabilities.
  class Task {
    const lastCap: nat
    const ambientLocked: bool
    var effective: set<nat>
    var permitted: set<nat>
    var inheritable: set<nat>
    var ambient: set<nat>
    var bounding: set<nat>

    // What the kernel guarantees at every moment.
    ghost predicate Valid()
      reads this
    {
      && effective <= permitted
      && ambient <= permitted * inheritable
      && (forall b :: b in permitted ==> b <= lastCap)
      && (forall b :: b in inheritable ==> b <= lastCap)
      && (forall b :: b in bounding ==> b <= lastCap)
    }

    // A process that holds `held`, and may pass it on as far as the bounding set goes.
    constructor (lastCap: nat, held: set<nat>)
      requires forall b :: b in held ==> b <= lastCap
      ensures Valid() && this.lastCap == lastCap && !ambientLocked
      ensures effective == permitted == bounding == held && inheritable == ambient == {}
    {
      this.lastCap, ambientLocked := lastCap, false;
      effective, permitted, bounding, inheritable, ambient := held, held, held, {}, {};
    }

    // PR_CAPBSET_DROP
    method DropBounding(bit: nat) returns (e: Errno)
      requires Valid()
      modifies this`bounding
      ensures Valid()
      ensures e == if CAP_SETPCAP !in effective then EPERM else if bit > lastCap then EINVAL else Ok
      ensures bounding == if e == Ok then old(bounding) - {bit} else old(bounding)
    {
      if CAP_SETPCAP !in effective { return EPERM; }
      if bit > lastCap { return EINVAL; }
      bounding := bounding - {bit};
      return Ok;
    }

    // PR_CAP_AMBIENT_CLEAR_ALL
    method ClearAmbient()
      requires Valid()
      modifies this`ambient
      ensures Valid() && ambient == {}
    {
      ambient := {};
    }

    // capset(2), with each set as its two words
    method Capset(eLow: bv32, eHigh: bv32, pLow: bv32, pHigh: bv32, iLow: bv32, iHigh: bv32) returns (r: Errno)
      requires Valid()
      modifies this`effective, this`permitted, this`inheritable, this`ambient
      ensures Valid()
      ensures var e := Cut(Bits(Words(eLow, eHigh)), lastCap);
              var p := Cut(Bits(Words(pLow, pHigh)), lastCap);
              var i := Cut(Bits(Words(iLow, iHigh)), lastCap);
              if CapsetAllowed(e, p, i, old(effective), old(permitted), old(inheritable), bounding) then
                r == Ok && effective == e && permitted == p && inheritable == i && ambient == old(ambient) * p * i
              else
                r == EPERM && effective == old(effective) && permitted == old(permitted)
                && inheritable == old(inheritable) && ambient == old(ambient)
    {
      var e := Cut(Bits(Words(eLow, eHigh)), lastCap);
      var p := Cut(Bits(Words(pLow, pHigh)), lastCap);
      var i := Cut(Bits(Words(iLow, iHigh)), lastCap);
      if !CapsetAllowed(e, p, i, effective, permitted, inheritable, bounding) {
        return EPERM;
      }
      effective, permitted, inheritable, ambient := e, p, i, ambient * p * i;
      return Ok;
    }

    // PR_CAP_AMBIENT_RAISE
    method RaiseAmbient(bit: nat) returns (e: Errno)
      requires Valid()
      modifies this`ambient
      ensures Valid()
      ensures e == if bit > lastCap then EINVAL
                   else if bit !in permitted * inheritable || ambientLocked then EPERM else Ok
      ensures ambient == if e == Ok then old(ambient) + {bit} else old(ambient)
    {
      if bit > lastCap { return EINVAL; }
      if bit !in permitted * inheritable || ambientLocked { return EPERM; }
      ambient := ambient + {bit};
      return Ok;
    }
  }

  // ----- The reduction -----

  datatype ApplyError = UnknownName(name: string) | DropFailed(bit: nat) | CapsetFailed | RaiseFailed(bit: nat)

  // What is left of a bounding set when every bit up to `last` outside `wanted` is dropped.
  function Kept(bounding: set<nat>, wanted: set<nat>, last: nat): set<nat> {
    set b | b in bounding && (b > last || b in wanted)
  }

  // Drops every bit up to `last` that the policy does not ask for. EINVAL only means the
  // kernel has no such capability.
  method DropUnwanted(task: Task, wanted: CapSet, last: nat) returns (r: Result<(), ApplyError>)
    requires task.Valid()
    modifies task`bounding
    ensures task.Valid()
    ensures r.Success? <==> CAP_SETPCAP in task.effective || forall b: nat :: b <= last ==> Has(wanted, b)
    ensures r.Success? ==> task.bounding == Kept(old(task.bounding), Bits(wanted), last)
    ensures task.bounding <= old(task.bounding)
  {
    var bit := 0;
    while bit <= last
      invariant 0 <= bit <= last + 1
      invariant task.Valid()
      invariant CAP_SETPCAP in task.effective || forall b: nat :: b < bit ==> Has(wanted, b)
      invariant task.bounding == set b | b in old(task.bounding) && (b >= bit || b in Bits(wanted))
    {
      assert Has(wanted, bit) <==> bit in Bits(wanted);
      if !Has(wanted, bit) {
        var e := task.DropBounding(bit);
        if e != Ok && e != EINVAL {
          return Failure(DropFailed(bit));
        }
      }
      bit := bit + 1;
    }
    return Success(());
  }

  // Raises every bit up to `last` that the policy asks for.
  method RaiseWanted(task: Task, wanted: CapSet, last: nat) returns (r: Result<(), ApplyError>)
    requires task.Valid() && task.ambient == {}
    modifies task`ambient
    ensures task.Valid()
    ensures r.Success? <==>
              Cut(Bits(wanted), last) <= task.permitted * task.inheritable && (Cut(Bits(wanted), last) == {} || !task.ambientLocked)
    ensures r.Success? ==> task.ambient == Cut(Bits(wanted), last)
  {
    var bit := 0;
    while bit <= last
      invariant 0 <= bit <= last + 1
      invariant task.Valid()
      invariant task.ambient == set b | b in Bits(wanted) && b < bit
      invariant task.ambient == {} || !task.ambientLocked
    {
      assert Has(wanted, bit) <==> bit in Bits(wanted);
      if Has(wanted, bit) {
        var e := task.RaiseAmbient(bit);
        if e != Ok {
          assert bit in Bits(wanted) && bit in Cut(Bits(wanted), last);
          return Failure(RaiseFailed(bit));
        }
      }
      bit := bit + 1;
    }
    return Success(());
  }

  // Everything the kernel has to agree to for the whole reduction to go through.
  ghost predicate Reducible(p: Policy, last: nat, task: Task)
    reads task
  {
    var e, pm, i := Cut(Bits(p.effective), task.lastCap), Cut(Bits(p.permitted), task.lastCap), Cut(Bits(p.inheritable), task.lastCap);
    var a := Cut(Bits(p.ambient), last);
    && (CAP_SETPCAP in task.effective || forall b: nat :: b <= last ==> Has(p.bounding, b))
    && CapsetAllowed(e, pm, i, task.effective, task.permitted, task.inheritable, Kept(task.bounding, Bits(p.bounding), last))
    && a <= pm * i && (a == {} || !task.ambientLocked)
  }

  lemma SameBitsSameFate(p: Policy, q: Policy, last: nat, task: Task)
    requires Bits(p.bounding) == Bits(q.bounding) && Bits(p.effective) == Bits(q.effective)
    requires Bits(p.permitted) == Bits(q.permitted) && Bits(p.inheritable) == Bits(q.inheritable)
    requires Bits(p.ambient) == Bits(q.ambient)
    ensures Reducible(p, last, task) <==> Reducible(q, last, task)
  {
    forall b: nat ensures Has(p.bounding, b) <==> Has(q.bounding, b) {
      assert Has(p.bounding, b) <==> b in Bits(p.bounding);
      assert Has(q.bounding, b) <==> b in Bits(q.bounding);
    }
  }

  // Reduces the process to a policy, where `last` is the highest capability the program
  // believes the kernel has. Success is possible exactly when the kernel's rules allow it;
  // then the five sets are what the policy asks for, within `last` for the two that are
  // set bit by bit. No privilege is ever gained on the way, even when it fails halfway.
  method ApplyPolicy(task: Task, p: Policy, last: nat) returns (r: Result<(), ApplyError>)
    requires task.Valid()
    modifies task
    ensures task.Valid()
    ensures r.Success? <==> old(Reducible(p, last, task))
    ensures r.Success? ==>
              && task.effective == Cut(Bits(p.effective), task.lastCap)
              && task.permitted == Cut(Bits(p.permitted), task.lastCap)
              && task.inheritable == Cut(Bits(p.inheritable), task.lastCap)
              && task.ambient == Cut(Bits(p.ambient), last)
              && task.bounding == Kept(old(task.bounding), Bits(p.bounding), last)
    ensures task.permitted <= old(task.permitted) && task.bounding <= old(task.bounding)
  {
    var dropped := DropUnwanted(task, p.bounding, last);
    if dropped.Failure? {
      return dropped;
    }
    task.ClearAmbient();
    WordsRoundTrip(p.effective);
    WordsRoundTrip(p.permitted);
    WordsRoundTrip(p.inheritable);
    var e := task.Capset(Low(p.effective), High(p.effective), Low(p.permitted), High(p.permitted),
                         Low(p.inheritable), High(p.inheritable));
    if e != Ok {
      return Failure(CapsetFailed);
    }
    r := RaiseWanted(task, p.ambient, last);
  }

  predicate UpTo(bits: set<nat>, last: nat) {
    forall b :: b in bits ==> b <= last
  }

  // All that is asked for, but for the bounding set, is something the kernel has.
  predicate Within(caps: SpecCaps, table: Names, last: nat) {
    && UpTo(Asked(caps.effective, table), last) && UpTo(Asked(caps.permitted, table), last)
    && UpTo(Asked(caps.inheritable, table), last) && UpTo(Asked(caps.ambient, table), last)
  }

  // The process has exactly what was asked for, out of what it was bounded by before.
  ghost predicate Exact(task: Task, caps: SpecCaps, table: Names, boundingBefore: set<nat>)
    reads task
  {
    && task.effective == Asked(caps.effective, table)
    && task.permitted == Asked(caps.permitted, table)
    && task.inheritable == Asked(caps.inheritable, table)
    && task.ambient == Asked(caps.ambient, table)
    && task.bounding == boundingBefore * Asked(caps.bounding, table)
  }

  // Something above `last` is held unasked or asked for as ambient.
  predicate Overlooked(caps: SpecCaps, table: Names, last: nat, bounding: set<nat>) {
    !UpTo(bounding - Asked(caps.bounding, table), last) || !UpTo(Asked(caps.ambient, table), last)
  }

  lemma CutWithin(bits: set<nat>, last: nat)
    ensures Cut(bits, last) == bits <==> UpTo(bits, last)
  {
    if b :| b in bits && b > last {
      assert b !in Cut(bits, last);
    }
  }

  lemma KeptExactly(bounding: set<nat>, wanted: set<nat>, last: nat)
    ensures Kept(bounding, wanted, last) == bounding * wanted <==> UpTo(bounding - wanted, last)
  {
    if b :| b in bounding && b > last && b !in wanted {
      assert b in bounding - wanted;
      assert b in Kept(bounding, wanted, last);
    } else {
      assert UpTo(bounding - wanted, last);
      assert Kept(bounding, wanted, last) == bounding * wanted;
    }
  }

  // What the reduction comes to: the kernel cuts three sets, and the two that are changed
  // bit by bit are only looked at up to `last`.
  ghost predicate Reduced(task: Task, caps: SpecCaps, table: Names, last: nat, boundingBefore: set<nat>)
    reads task
  {
    && task.effective == Cut(Asked(caps.effective, table), task.lastCap)
    && task.permitted == Cut(Asked(caps.permitted, table), task.lastCap)
    && task.inheritable == Cut(Asked(caps.inheritable, table), task.lastCap)
    && task.ambient == Cut(Asked(caps.ambient, table), last)
    && task.bounding == Kept(boundingBefore, Asked(caps.bounding, table), last)
  }

  // When the kernel has all that is asked for, the reduction is exact just when `last`
  // overlooks nothing.
  lemma ReductionExact(task: Task, caps: SpecCaps, table: Names, last: nat, before: set<nat>)
    requires Reduced(task, caps, table, last, before) && Within(caps, table, task.lastCap)
    ensures Exact(task, caps, table, before) <==> !Overlooked(caps, table, last, before)
  {
    CutWithin(Asked(caps.effective, table), task.lastCap);
    CutWithin(Asked(caps.permitted, table), task.lastCap);
    CutWithin(Asked(caps.inheritable, table), task.lastCap);
    CutWithin(Asked(caps.ambient, table), last);
    KeptExactly(before, Asked(caps.bounding, table), last);
  }

  // A `last` no less than the kernel's overlooks nothing.
  lemma NothingOverlooked(caps: SpecCaps, table: Names, lastCap: nat, last: nat, bounding: set<nat>)
    requires Within(caps, table, lastCap) && lastCap <= last && UpTo(bounding, lastCap)
    ensures !Overlooked(caps, table, last, bounding)
  {
  }

  // Names to sets, for any section.
  method ApplySection(task: Task, want: Policy, ghost section: SpecCaps, table: Names, last: nat) returns (r: Result<(), ApplyError>)
    requires task.Valid() && Means(want, section, table)
    modifies task
    ensures task.Valid()
    ensures forall p :: Means(p, section, table) ==> (r.Success? <==> old(Reducible(p, last, task)))
    ensures task.permitted <= old(task.permitted) && task.bounding <= old(task.bounding)
    ensures r.Success? ==> Reduced(task, section, table, last, old(task.bounding))
  {
    forall p | Means(p, section, table)
      ensures Reducible(p, last, task) <==> Reducible(want, last, task)
    {
      SameBitsSameFate(p, want, last, task);
    }
    r := ApplyPolicy(task, want, last);
  }

  // The whole of ApplyCapabilities. When it succeeds and the kernel has all that is asked
  // for, the reduction is exact just when the program's `last` overlooks nothing, so always
  // when that is no less than the kernel's.
  method ApplyCapabilities(task: Task, caps: Option<SpecCaps>, table: Names, last: nat) returns (r: Result<(), ApplyError>)
    requires task.Valid()
    modifies task
    ensures task.Valid()
    ensures !AllKnown(Section(caps), table) ==>
              && r.Failure? && r.error.UnknownName?
              && task.effective == old(task.effective) && task.permitted == old(task.permitted)
              && task.inheritable == old(task.inheritable) && task.ambient == old(task.ambient)
              && task.bounding == old(task.bounding)
    ensures AllKnown(Section(caps), table) ==>
              forall p :: Means(p, Section(caps), table) ==> (r.Success? <==> old(Reducible(p, last, task)))
    ensures task.permitted <= old(task.permitted) && task.bounding <= old(task.bounding)
    ensures r.Success? ==> Reduced(task, Section(caps), table, last, old(task.bounding))
    ensures r.Success? && Within(Section(caps), table, task.lastCap) ==>
              (Exact(task, Section(caps), table, old(task.bounding))
               <==> !Overlooked(Section(caps), table, last, old(task.bounding)))
    ensures r.Success? && Within(Section(caps), table, task.lastCap) && task.lastCap <= last ==>
              Exact(task, Section(caps), table, old(task.bounding))
  {
    var want := ResolveCapabilities(caps, table);
    if want.Failure? {
      return Failure(UnknownName(want.error));
    }
    ghost var section, before := Section(caps), task.bounding;
    r := ApplySection(task, want.value, section, table, last);
    if r.Success? && Within(section, table, task.lastCap) {
      ReductionExact(task, section, table, last, before);
      if task.lastCap <= last {
        NothingOverlooked(section, table, task.lastCap, last, before);
      }
    }
  }

  // What the program takes for the last capability when it cannot read the kernel's.
  const CAP_CHECKPOINT_RESTORE := 40

  // On a kernel with one capability more, a spec without a capability section succeeds and
  // leaves that one in the bounding set.
  method FallbackKeepsNewer(table: Names) returns (task: Task, r: Result<(), ApplyError>)
    ensures task.lastCap == CAP_CHECKPOINT_RESTORE + 1
    ensures r.Success? && task.bounding == {CAP_CHECKPOINT_RESTORE + 1}
    ensures !Exact(task, Section(None), table, {CAP_SETPCAP, CAP_CHECKPOINT_RESTORE + 1})
  {
    var held := {CAP_SETPCAP, CAP_CHECKPOINT_RESTORE + 1};
    task := new Task(CAP_CHECKPOINT_RESTORE + 1, held);
    BitsEmpty();
    assert Means(Policy(0, 0, 0, 0, 0), Section(None), table);
    assert Reducible(Policy(0, 0, 0, 0, 0), CAP_CHECKPOINT_RESTORE, task);
    r := ApplyCapabilities(task, None, table, CAP_CHECKPOINT_RESTORE);
    assert CAP_CHECKPOINT_RESTORE + 1 in held - Asked([], table);
  }
}
