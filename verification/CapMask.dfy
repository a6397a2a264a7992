// The 64-bit capability masks of pkg/security/capabilities.go as sets of bit numbers.
module CapMask {

  type CapSet = bv64

  predicate Meets(s: CapSet, m: CapSet) {
    s & m != 0
  }

  // 1 shifted left b times.
  function Bit(b: nat): CapSet {
    if b == 0 then 1 else Bit(b - 1) << 1
  }

  // Bits past the 63rd are shifted out, so no mask has them.
  predicate Has(s: CapSet, b: nat) {
    b < 64 && Meets(s, Bit(b))
  }

  function Add(s: CapSet, b: nat): CapSet {
    s | Bit(b)
  }

  function Bits(s: CapSet): set<nat> {
    set b: nat | b < 64 && Has(s, b)
  }

  // The two words capset(2) is given for a mask, and the mask the kernel makes of them.
  function Low(s: CapSet): bv32 {
    (s & 0xffff_ffff) as bv32
  }

  function High(s: CapSet): bv32 {
    (s >> 32) as bv32
  }

  function Words(low: bv32, high: bv32): CapSet {
    (low as bv64) | ((high as bv64) << 32)
  }

  lemma WordsRoundTrip(s: CapSet)
    ensures Words(Low(s), High(s)) == s
  {
  }

  // ----- Shifted ones are distinct and nonzero -----

  lemma TopBit()
    ensures Bit(0) == 1 && Bit(7) == 0x80 && Bit(31) == 0x8000_0000
    ensures Bit(63) == 0x8000_0000_0000_0000
  {
    assert Bit(3) == 0x8;
    assert Bit(7) == 0x80;
    assert Bit(11) == 0x800;
    assert Bit(15) == 0x8000;
    assert Bit(19) == 0x80000;
    assert Bit(23) == 0x800000;
    assert Bit(27) == 0x8000000;
    assert Bit(31) == 0x80000000;
    assert Bit(35) == 0x800000000;
    assert Bit(39) == 0x8000000000;
    assert Bit(43) == 0x80000000000;
    assert Bit(47) == 0x800000000000;
    assert Bit(51) == 0x8000000000000;
    assert Bit(55) == 0x80000000000000;
    assert Bit(59) == 0x800000000000000;
  }

  lemma ShiftNonzero(x: bv64)
    requires x << 1 != 0
    ensures x != 0
  {
  }

  lemma {:induction false} BitNonzero(b: nat)
    requires b < 64
    ensures Bit(b) != 0
    decreases 63 - b
  {
    if b == 63 {
      TopBit();
    } else {
      BitNonzero(b + 1);
      ShiftNonzero(Bit(b));
    }
  }

  lemma ShiftsStayApart(x: bv64, y: bv64)
    ensures !Meets(x, y) ==> !Meets(x << 1, y << 1)
    ensures !Meets(1, y << 1)
    ensures Meets(x, y) == Meets(y, x)
  {
  }

  lemma {:induction false} BitsApart(b: nat, c: nat)
    requires b < c
    ensures !Meets(Bit(b), Bit(c))
  {
    if b == 0 {
      ShiftsStayApart(0, Bit(c - 1));
    } else {
      BitsApart(b - 1, c - 1);
      ShiftsStayApart(Bit(b - 1), Bit(c - 1));
    }
  }

  lemma BitsDiffer(b: nat, c: nat)
    requires b != c
    ensures !Meets(Bit(b), Bit(c))
  {
    if b < c {
      BitsApart(b, c);
    } else {
      BitsApart(c, b);
      ShiftsStayApart(Bit(b), Bit(c));
    }
  }

  lemma AndDistributes(s: bv64, x: bv64, y: bv64)
    ensures (s | x) & y == (s & y) | (x & y)
  {
  }

  lemma OrNothing(p: bv64, q: bv64)
    requires q == 0
    ensures p | q == p
  {
  }

  lemma JoinOther(s: bv64, x: bv64, y: bv64)
    requires x & y == 0
    ensures (s | x) & y == s & y
  {
    AndDistributes(s, x, y);
    OrNothing(s & y, x & y);
  }

  lemma JoinSame(s: bv64, x: bv64)
    requires x != 0
    ensures (s | x) & x != 0
  {
  }

  lemma MeetsJoin(s: bv64, x: bv64, y: bv64)
    requires !Meets(x, y)
    ensures Meets(s | x, y) <==> Meets(s, y)
  {
    JoinOther(s, x, y);
  }

  lemma AddKeepsOthers(s: CapSet, b: nat, c: nat)
    requires b < 64 && c < 64 && b != c
    ensures Has(Add(s, b), c) <==> Has(s, c)
  {
    BitsDiffer(b, c);
    MaskKeepsOther(s, Bit(b), Bit(c), b, c);
  }

  // The same on masks that are not unfolded.
  lemma MaskKeepsOther(s: CapSet, x: bv64, y: bv64, b: nat, c: nat)
    requires x == Bit(b) && y == Bit(c) && c < 64 && !Meets(x, y)
    ensures Has(Add(s, b), c) <==> Has(s, c)
  {
    MeetsJoin(s, x, y);
  }

  lemma HasAdd(s: CapSet, b: nat, c: nat)
    requires b < 64 && c < 64
    ensures Has(Add(s, b), c) <==> Has(s, c) || b == c
  {
    if b == c {
      BitNonzero(b);
      JoinSame(s, Bit(b));
    } else {
      AddKeepsOthers(s, b, c);
    }
  }

  // Adding a bit to a mask adds exactly that number to its set.
  lemma BitsAdd(s: CapSet, b: nat)
    requires b < 64
    ensures Bits(Add(s, b)) == Bits(s) + {b}
  {
    forall c: nat | c < 64 ensures Has(Add(s, b), c) <==> Has(s, c) || b == c {
      HasAdd(s, b, c);
    }
  }

  lemma BitsEmpty()
    ensures Bits(0) == {}
  {
  }
}
