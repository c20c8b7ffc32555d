/** The seeded generator and the fake embedding that draws from it. Operators on
    32 bits follow sections 7.1.6 and 7.1.7 of ECMA-262. */
module Mulberry {

  const TwoTo32: int := 0x1_0000_0000
  const Increment: int := 0x6d2b79f5

  /** The inverse of the increment modulo 2^32. */
  const Inverse: int := 0xdc58aa5d

  function ToUint32(x: int): (r: int)
    ensures 0 <= r < TwoTo32
  {
    x % TwoTo32
  }

  function ToInt32(x: int): int {
    if ToUint32(x) >= 0x8000_0000 then ToUint32(x) - TwoTo32 else ToUint32(x)
  }

  const WordBits: nat := 32

  /** The bits of two words from bit `k` on, combined bit by bit. */
  function Bitwise(op: (int, int) -> int, u: int, v: int, k: nat): int
    decreases WordBits - k
  {
    if k >= WordBits then 0 else op(u % 2, v % 2) + 2 * Bitwise(op, u / 2, v / 2, k + 1)
  }

  function ExclusiveOr(a: int, b: int): int { if a == b then 0 else 1 }

  function InclusiveOr(a: int, b: int): int { if a == 0 && b == 0 then 0 else 1 }

  function Xor(a: int, b: int): int { ToInt32(Bitwise(ExclusiveOr, ToUint32(a), ToUint32(b), 0)) }

  function Or(a: int, b: int): int { ToInt32(Bitwise(InclusiveOr, ToUint32(a), ToUint32(b), 0)) }

  function Halve(u: nat, n: nat): (r: nat)
    ensures r <= u
  {
    if n == 0 then u else Halve(u / 2, n - 1)
  }

  /** `>>>`, which reduces the shift count modulo 32. */
  function ShiftRight(a: int, n: nat): (r: int)
    ensures 0 <= r < TwoTo32
  {
    Halve(ToUint32(a), n % 32)
  }

  /** `Math.imul` */
  function Imul(a: int, b: int): int { ToInt32(ToUint32(a) * ToUint32(b)) }

  /** The scrambling of the counter, for given operators. */
  function MixWith(xor: (int, int) -> int, or: (int, int) -> int, shr: (int, nat) -> int, imul: (int, int) -> int,
                   t: int)
    : int
  {
    var t1 := imul(xor(t, shr(t, 15)), or(t, 1));
    var t2 := xor(t1, t1 + imul(xor(t1, shr(t1, 7)), or(t1, 61)));
    shr(xor(t2, shr(t2, 14)), 0)
  }

  /** The numerator of the number drawn at counter `t`. */
  function Mix(t: int): (k: int)
    ensures 0 <= k < TwoTo32
  {
    MixWith(Xor, Or, ShiftRight, Imul, t)
  }

  // ----- the counter -----

  /** Every integer up to here is a number. */
  const Exact: nat := 0x20_0000_0000_0000

  /** The distance between neighbouring numbers at `x`. */
  function Spacing(x: nat): (u: nat)
    ensures x < Exact ==> u == 1
    ensures x >= Exact ==> u > 0 && u % 2 == 0
  {
    if x < Exact then 1 else 2 * Spacing(x / 2)
  }

  /** The multiple of `u` nearest to `x`, an even one for ties. */
  function Nearest(x: nat, u: nat): nat
    requires u > 0
  {
    var down, rest := x / u, x % u;
    if 2 * rest < u || (2 * rest == u && down % 2 == 0) then down * u else (down + 1) * u
  }

  /** The number value for an integer, section 6.1.6.1 of ECMA-262. */
  function ToNumber(x: nat): nat {
    Nearest(x, Spacing(x))
  }

  /** The counter after `n` calls with exact arithmetic. */
  function Counter(seed: nat, n: nat): nat { seed + n * Increment }

  /** The counter after `n` calls: a number that is rounded, never reduced. */
  function Rounded(seed: nat, n: nat): nat {
    if n == 0 then seed else ToNumber(Rounded(seed, n - 1) + Increment)
  }

  /** The counter of a generator that wraps at 2^32 on every call. */
  function Wrapped(seed: int, n: nat): int {
    if n == 0 then ToUint32(seed) else ToUint32(Wrapped(seed, n - 1) + Increment)
  }

  /** The closure: a captured counter that grows by the increment, and the
      scrambling it applies. */
  class Generator {
    const mix: int -> int
    var seed: nat

    constructor (mix: int -> int, seed: nat)
      ensures this.seed == seed && this.mix == mix
    {
      this.mix := mix;
      this.seed := seed;
    }

    method Next() returns (x: real)
      modifies this
      ensures seed == ToNumber(old(seed) + Increment)
      ensures x == mix(seed) as real / 4294967296.0
    {
      seed := ToNumber(seed + Increment);
      x := mix(seed) as real / 4294967296.0;
    }
  }

  /** The entry of the embedding for a drawn numerator. */
  function Scaled(k: int): real { k as real / 2147483648.0 - 1.0 }

  /** The loop that fills the array from a fresh generator. */
  method Fill(mix: int -> int, seed: nat, dim: nat) returns (out: array<real>)
    ensures out.Length == dim
    ensures forall i :: 0 <= i < dim ==> out[i] == Scaled(mix(Rounded(seed, i + 1)))
  {
    out := new real[dim];
    var rnd := new Generator(mix, seed);
    for i := 0 to dim
      invariant rnd.seed == Rounded(seed, i) && rnd.mix == mix
      invariant forall j :: 0 <= j < i ==> out[j] == Scaled(mix(Rounded(seed, j + 1)))
    {
      var x := rnd.Next();
      assert rnd.seed == Rounded(seed, i + 1);
      out[i] := x * 2.0 - 1.0;
    }
  }

  /** Every entry lies in [-1, 1); and as long as the counter stays exact, it is
      k / 2^31 - 1 for the numerator k that a generator wrapping at 2^32 draws. */
  method FakeEmbed(seed: nat, dim: nat) returns (out: array<real>)
    requires seed < TwoTo32
    ensures out.Length == dim
    ensures forall i :: 0 <= i < dim ==> out[i] == Scaled(Mix(Rounded(seed, i + 1))) && -1.0 <= out[i] < 1.0
    ensures StaysExact(seed, dim) ==> forall i :: 0 <= i < dim ==> out[i] == Scaled(Mix(Wrapped(seed, i + 1)))
  {
    out := Fill(Mix, seed, dim);
    forall i | 0 <= i < dim
      ensures -1.0 <= out[i] < 1.0
      ensures StaysExact(seed, dim) ==> out[i] == Scaled(Mix(Wrapped(seed, i + 1)))
    {
      EntryAgrees(seed, i + 1, dim);
    }
  }

  lemma EntryAgrees(seed: nat, n: nat, dim: nat)
    requires seed < TwoTo32 && n <= dim
    ensures -1.0 <= Scaled(Mix(Rounded(seed, n))) < 1.0
    ensures StaysExact(seed, dim) ==> Scaled(Mix(Rounded(seed, n))) == Scaled(Mix(Wrapped(seed, n)))
  {
    ScaledInRange(Mix(Rounded(seed, n)));
    if StaysExact(seed, dim) {
      StaysExactBefore(seed, n, dim);
      DrawAgrees(seed, n);
    }
  }

  /** No rounding has happened after `n` calls: every counter is at most 2^53,
      or only the last one is greater, and it is even. */
  predicate StaysExact(seed: nat, n: nat) {
    Counter(seed, n) <= Exact || (n > 0 && Counter(seed, n - 1) <= Exact && Counter(seed, n) % 2 == 0)
  }

  lemma CounterGrows(seed: nat, m: nat, n: nat)
    requires m <= n
    ensures Counter(seed, m) <= Counter(seed, n)
    ensures n > m ==> Counter(seed, m) <= Counter(seed, n - 1)
  {
    assert Counter(seed, n) - Counter(seed, m) == (n - m) * Increment;
    if n > m {
      assert Counter(seed, n - 1) - Counter(seed, m) == (n - 1 - m) * Increment;
    }
  }

  lemma StaysExactBefore(seed: nat, m: nat, n: nat)
    requires m <= n && StaysExact(seed, n)
    ensures StaysExact(seed, m)
  {
    CounterGrows(seed, m, n);
  }

  /** Embeddings of up to 4917756 entries, the 1536 of the provider among them,
      never round. */
  lemma SmallEmbeddingsStayExact(seed: nat, dim: nat)
    requires seed < TwoTo32 && dim <= 4_917_756
    ensures StaysExact(seed, dim)
  {
    CounterGrows(seed, dim, 4_917_756);
  }

  /** From 4917760 entries on, every seed has been rounded. */
  lemma LongEmbeddingsDrift(seed: nat, n: nat)
    requires seed < TwoTo32 && n >= 4_917_760
    ensures exists k :: 0 <= k <= n && ToUint32(Rounded(seed, k)) != Wrapped(seed, k)
  {
    CounterGrows(seed, 4_917_759, n - 1);
    CounterGrows(seed, n - 1, n);
    AgreesIff(seed, n);
  }

  // ----- rounding -----

  lemma EvenMultiple(q: int, u: int)
    requires u % 2 == 0
    ensures (q * u) % 2 == 0
  {
    assert q * u == 2 * (q * (u / 2));
  }

  lemma LargeNumbersAreEven(x: nat)
    requires x >= Exact
    ensures ToNumber(x) % 2 == 0
  {
    var u := Spacing(x);
    EvenMultiple(x / u, u);
    EvenMultiple(x / u + 1, u);
  }

  /** Integers up to 2^53, and even ones up to 2^54, are numbers. */
  lemma ToNumberIsExact(x: nat)
    requires x <= Exact || (x < 2 * Exact && x % 2 == 0)
    ensures ToNumber(x) == x
  {
    if x >= Exact && x < 2 * Exact {
      assert Spacing(x / 2) == 1;
    }
  }

  lemma {:induction false} RoundedIsExact(seed: nat, n: nat)
    requires seed <= Exact && StaysExact(seed, n)
    ensures Rounded(seed, n) == Counter(seed, n)
  {
    if n > 0 {
      StaysExactBefore(seed, n - 1, n);
      RoundedIsExact(seed, n - 1);
      assert Counter(seed, n) == Counter(seed, n - 1) + Increment;
      ToNumberIsExact(Counter(seed, n));
    }
  }

  /** The first counter that gets rounded is an odd one: of two counters in a row
      one is odd. */
  lemma FirstRoundedIsOdd(seed: nat, n: nat)
    requires n > 0 && StaysExact(seed, n - 1) && !StaysExact(seed, n)
    ensures Counter(seed, n) == Counter(seed, n - 1) + Increment
    ensures Counter(seed, n) > Exact && Counter(seed, n) % 2 == 1
  {
    assert Counter(seed, n) == Counter(seed, n - 1) + Increment;
  }

  /** Once two calls lie behind 2^53, some call has rounded an odd counter. */
  lemma {:induction false} RoundingShows(seed: nat, n: nat) returns (k: nat)
    requires seed <= Exact && !StaysExact(seed, n)
    ensures k <= n && Rounded(seed, k) % 2 == 0 && Counter(seed, k) % 2 == 1
  {
    if StaysExact(seed, n - 1) {
      k := n;
      RoundedToEven(seed, n);
    } else {
      k := RoundingShows(seed, n - 1);
    }
  }

  lemma RoundedToEven(seed: nat, n: nat)
    requires seed <= Exact && n > 0 && StaysExact(seed, n - 1) && !StaysExact(seed, n)
    ensures Rounded(seed, n) % 2 == 0 && Counter(seed, n) % 2 == 1
  {
    RoundedIsExact(seed, n - 1);
    FirstRoundedIsOdd(seed, n);
    LargeNumbersAreEven(Counter(seed, n));
  }

  /** The number counter agrees with the 32-bit one, modulo 2^32 and at every
      call, exactly as long as it stays exact. */
  lemma AgreesIff(seed: nat, n: nat)
    requires seed < TwoTo32
    ensures (forall k | 0 <= k <= n :: ToUint32(Rounded(seed, k)) == Wrapped(seed, k)) <==> StaysExact(seed, n)
  {
    if StaysExact(seed, n) {
      forall k | 0 <= k <= n ensures ToUint32(Rounded(seed, k)) == Wrapped(seed, k) {
        StaysExactBefore(seed, k, n);
        RoundedIsExact(seed, k);
        CounterAgrees(seed, k);
      }
    } else {
      var k := RoundingShows(seed, n);
      CounterAgrees(seed, k);
      SameParity(Rounded(seed, k));
      SameParity(Counter(seed, k));
    }
  }

  lemma SameParity(x: int)
    ensures ToUint32(x) % 2 == x % 2
  {
    EvenShift(x % TwoTo32, 0x8000_0000 * (x / TwoTo32));
  }

  lemma EvenShift(r: int, m: int)
    ensures (r + 2 * m) % 2 == r % 2
  {
  }

  lemma ScaledInRange(k: int)
    requires 0 <= k < TwoTo32
    ensures -1.0 <= Scaled(k) < 1.0
  {
  }

  /** An exact counter draws the numbers of the wrapping one. */
  lemma DrawAgrees(seed: nat, n: nat)
    requires seed < TwoTo32 && StaysExact(seed, n)
    ensures Mix(Rounded(seed, n)) == Mix(Wrapped(seed, n))
  {
    RoundedIsExact(seed, n);
    CounterAgrees(seed, n);
    WrappedIsReduced(seed, n);
    MixReadsResidue(Counter(seed, n), Wrapped(seed, n));
  }

  lemma WrappedIsReduced(seed: int, n: nat)
    ensures ToUint32(Wrapped(seed, n)) == Wrapped(seed, n)
  {
  }

  /** The exact counter and the wrapping one agree modulo 2^32. */
  lemma {:induction false} CounterAgrees(seed: nat, n: nat)
    ensures ToUint32(Counter(seed, n)) == Wrapped(seed, n)
  {
    if n > 0 {
      CounterAgrees(seed, n - 1);
      AddResidue(Counter(seed, n - 1), Wrapped(seed, n - 1), Increment);
      assert Counter(seed, n) == Counter(seed, n - 1) + Increment;
    }
  }

  lemma AddResidue(a: int, b: int, c: int)
    requires ToUint32(a) == b
    ensures ToUint32(a + c) == ToUint32(b + c)
  {
    assert a + c == b + c + (a / TwoTo32) * TwoTo32;
    ResidueOfSum(b + c, a / TwoTo32);
  }

  lemma ResidueOfSum(x: int, m: int)
    ensures ToUint32(x + m * TwoTo32) == ToUint32(x)
  {
  }

  /** A draw depends on the counter only modulo 2^32. */
  lemma MixReadsResidue(a: int, b: int)
    requires ToUint32(a) == ToUint32(b)
    ensures Mix(a) == Mix(b)
  {
    OperatorsReadBits(a, b);
    MixWithReads(Xor, Or, ShiftRight, Imul, a, b);
  }

  lemma OperatorsReadBits(a: int, b: int)
    requires ToUint32(a) == ToUint32(b)
    ensures forall x :: Xor(a, x) == Xor(b, x)
    ensures forall x :: Or(a, x) == Or(b, x)
    ensures forall n: nat :: ShiftRight(a, n) == ShiftRight(b, n)
  {
  }

  lemma MixWithReads(xor: (int, int) -> int, or: (int, int) -> int, shr: (int, nat) -> int, imul: (int, int) -> int,
                     a: int, b: int)
    requires forall x :: xor(a, x) == xor(b, x)
    requires forall x :: or(a, x) == or(b, x)
    requires forall n: nat :: shr(a, n) == shr(b, n)
    ensures MixWith(xor, or, shr, imul, a) == MixWith(xor, or, shr, imul, b)
  {
  }

  /** The counters of two draws meet modulo 2^32 exactly when the draws are a
      multiple of 2^32 apart: the increment is odd. */
  lemma CountersMeetIff(seed: nat, i: nat, j: nat)
    ensures Wrapped(seed, i) == Wrapped(seed, j) <==> (j - i) % TwoTo32 == 0
  {
    CounterAgrees(seed, i);
    CounterAgrees(seed, j);
    var a, b := Counter(seed, i), Counter(seed, j);
    var d := j - i;
    assert b - a == d * Increment;
    if ToUint32(a) == ToUint32(b) {
      var m := b / TwoTo32 - a / TwoTo32;
      assert d * Increment == m * TwoTo32;
      Divisible(d, m);
    }
    if d % TwoTo32 == 0 {
      var q := d / TwoTo32;
      assert b == a + (q * Increment) * TwoTo32;
      ResidueOfSum(a, q * Increment);
    }
  }

  lemma Divisible(d: int, m: int)
    requires d * Increment == m * TwoTo32
    ensures d % TwoTo32 == 0
  {
    var k := 0x5df72c67;
    assert Increment * Inverse == 1 + k * TwoTo32;
    assert d * Increment * Inverse == m * TwoTo32 * Inverse;
    assert d == TwoTo32 * (m * Inverse - d * k);
  }
}
