// The cpu.shares to cpu.weight scaling of pkg/runtime/cgroups.go, on 64-bit unsigned
// arithmetic that wraps around.
module CpuWeight {

  const WORD: nat := 0x1_0000_0000_0000_0000

  type UInt64 = n: nat | n < WORD

  const MAX_SHARES: nat := 262144

  function Wrap(n: int): UInt64 {
    n % WORD
  }

  // The value before the clamps.
  function Scaled(shares: UInt64): UInt64 {
    Wrap(1 + Wrap(Wrap(shares - 2) * 9999) / 262142)
  }

  // No shares is no request, and gets the default. The clamp from below can never fire: the value is at least 1.
  function SharesToWeight(shares: UInt64): (weight: UInt64)
    ensures 1 <= weight <= 10000
    ensures shares == 0 ==> weight == 100
  {
    if shares == 0 then 100
    else
      var weight := Scaled(shares);
      if weight < 1 then 1
      else if weight > 10000 then 10000
      else weight
  }

  // No product overflows for shares up to this one.
  predicate Fits(shares: UInt64) {
    shares >= 2 && (shares - 2) * 9999 < 0x1_0000_0000_0000_0000
  }

  lemma ScaledPlainly(shares: UInt64)
    requires Fits(shares)
    ensures Scaled(shares) == 1 + (shares - 2) * 9999 / 262142
  {
  }

  // On the range v1 allows neither clamp fires, the ends map to the ends, and the weight
  // never falls and rises by at most one per share.
  lemma ExactOnRange(shares: UInt64)
    requires 2 <= shares <= MAX_SHARES
    ensures SharesToWeight(shares) == Scaled(shares) == 1 + (shares - 2) * 9999 / 262142
    ensures SharesToWeight(2) == 1 && SharesToWeight(MAX_SHARES) == 10000
    ensures shares < MAX_SHARES ==> SharesToWeight(shares) <= SharesToWeight(shares + 1) <= SharesToWeight(shares) + 1
  {
    ScaledPlainly(shares);
    if shares < MAX_SHARES {
      ScaledPlainly(shares + 1);
    }
  }

  // The least share count with a given weight.
  function LeastShares(weight: nat): UInt64
    requires 1 <= weight <= 10000
  {
    2 + ((weight - 1) * 262142 + 9998) / 9999
  }

  // Every weight is hit.
  lemma EveryWeightHit(weight: nat)
    requires 1 <= weight <= 10000
    ensures 2 <= LeastShares(weight) <= MAX_SHARES && SharesToWeight(LeastShares(weight)) == weight
  {
    var d := LeastShares(weight) - 2;
    assert (weight - 1) * 262142 <= d * 9999 < (weight - 1) * 262142 + 9999;
    ExactOnRange(LeastShares(weight));
  }

  lemma MonotoneWhileFits(a: UInt64, b: UInt64)
    requires 2 <= a <= b && Fits(b)
    ensures SharesToWeight(a) <= SharesToWeight(b)
  {
    ScaledPlainly(a);
    ScaledPlainly(b);
  }

  ghost predicate MonotoneUpTo(top: UInt64) {
    forall a: UInt64, b: UInt64 :: 2 <= a <= b <= top ==> SharesToWeight(a) <= SharesToWeight(b)
  }

  // The first share count whose product overflows falls back to the lowest weight.
  function FirstOverflow(): UInt64 {
    3 + (WORD - 1) / 9999
  }

  lemma OverflowDrops()
    ensures !Fits(FirstOverflow()) && Fits(FirstOverflow() - 1)
    ensures SharesToWeight(FirstOverflow()) == 1 && SharesToWeight(FirstOverflow() - 1) == 10000
  {
    ScaledPlainly(FirstOverflow() - 1);
    WrapsToNothing(FirstOverflow());
  }

  lemma WrapsToNothing(shares: UInt64)
    requires shares >= 2 && WORD <= (shares - 2) * 9999 < WORD + 262142
    ensures SharesToWeight(shares) == 1
  {
    var product := (shares - 2) * 9999;
    assert Wrap(product) == product - WORD;
    assert Wrap(product) / 262142 == 0;
  }

  // The scaling is monotone from 2 up to a bound exactly when the product does not
  // overflow there. A share count of 1 is outside: it wraps round to the highest weight.
  lemma MonotoneExact(top: UInt64)
    requires top >= 2
    ensures MonotoneUpTo(top) <==> Fits(top)
    ensures SharesToWeight(1) == 10000
  {
    if Fits(top) {
      forall a: UInt64, b: UInt64 | 2 <= a <= b <= top ensures SharesToWeight(a) <= SharesToWeight(b) {
        MonotoneWhileFits(a, b);
      }
    } else {
      OverflowDrops();
      assert FirstOverflow() <= top;
    }
  }
}
