/** Machine integers and reduced fractions, as Go's `int64` and `big.Rat` compute them. */
module Int64s {

  const HALF: int := 0x8000_0000_0000_0000
  const WHOLE: int := 0x1_0000_0000_0000_0000

  predicate Fits(x: int) { -HALF <= x < HALF }

  /** The low 64 bits of `x`, read as a signed number. */
  function Int64(x: int): int { (x + HALF) % WHOLE - HALF }

  /** Integer division as Go does it, toward zero. */
  function Truncated(n: int, d: int): int
    requires d > 0
  {
    if n >= 0 then n / d else -((-n) / d)
  }

  /** `Int64` is the one number in range that differs from `x` by a multiple of 2^64; `k` is which multiple. */
  lemma Int64Is(x: int) returns (k: int)
    ensures Fits(Int64(x)) && x == Int64(x) + k * WHOLE && (k == 0 <==> Fits(x))
  {
    k := (x + HALF) / WHOLE;
  }

  lemma Int64Unique(x: int, y: int, k: int)
    requires Fits(y) && x == y + k * WHOLE
    ensures Int64(x) == y
  {
    var j := Int64Is(x);
  }

  lemma Int64Keeps(x: int)
    requires Fits(x)
    ensures Int64(x) == x
  {
    Int64Unique(x, x, 0);
  }

  /** Adding wrapped numbers and wrapping is wrapping the sum. */
  lemma WrapsSum(a: int, b: int)
    ensures Int64(Int64(a) + Int64(b)) == Int64(a + b)
  {
    var i := Int64Is(a);
    var j := Int64Is(b);
    var k := Int64Is(Int64(a) + Int64(b));
    Int64Unique(a + b, Int64(Int64(a) + Int64(b)), i + j + k);
  }

  lemma WrapsDifference(a: int, b: int)
    ensures Int64(Int64(a) - Int64(b)) == Int64(a - b)
  {
    var i := Int64Is(a);
    var j := Int64Is(b);
    var k := Int64Is(Int64(a) - Int64(b));
    Int64Unique(a - b, Int64(Int64(a) - Int64(b)), i - j + k);
  }

  /** Dividing the wrapped number by a positive `int64` gives the true quotient exactly when nothing was wrapped. */
  lemma WrappedQuotientIff(n: int, d: int)
    requires 0 < d < HALF
    ensures Truncated(Int64(n), d) == Truncated(n, d) <==> Fits(n)
  {
    var k := Int64Is(n);
    var w := Int64(n);
    if n >= HALF {
      assert w + WHOLE <= n;
      QuotientsDiffer(w, n, d);
      QuotientSign(w, d);
    } else if n < -HALF {
      assert n + WHOLE <= w;
      QuotientsDiffer(-w, -n, d);
      QuotientSign(w, d);
    }
  }

  lemma QuotientSign(n: int, d: int)
    requires d > 0
    ensures (n >= 0 ==> Truncated(n, d) >= 0) && (n <= 0 ==> Truncated(n, d) <= 0)
  {}

  lemma QuotientsDiffer(w: int, n: int, d: int)
    requires 0 < d < HALF && n >= HALF && w + WHOLE <= n
    ensures n / d >= 1 && (w >= 0 ==> w / d < n / d)
  {
    FloorIs(n, d);
    Less(0, n / d + 1, d);
    Less(1, n / d + 1, d);
    if w >= 0 {
      FloorIs(w, d);
      assert (w / d + 1) * d == w / d * d + d;
      Less(w / d + 1, n / d + 1, d);
    }
  }

  lemma FloorIs(n: int, d: int)
    requires d > 0
    ensures n / d * d <= n < n / d * d + d && n / d * d + d == (n / d + 1) * d
  {}

  lemma Floors(a: int, b: int, d: int)
    requires d >= 0 && a <= b
    ensures a * d <= b * d
  {
    assert (b - a) * d >= 0;
    assert (b - a) * d == b * d - a * d;
  }

  lemma Less(a: int, b: int, d: int)
    requires d > 0 && a * d < b * d
    ensures a < b
  {
    if a >= b { Floors(b, a, d); }
  }

  // ---------------------------------------------------------------------------------------------
  // Lowest terms

  function Gcd(a: nat, b: nat): nat
    decreases b
  {
    if b == 0 then a else Gcd(b, a % b)
  }

  /** The greatest common divisor divides both numbers; `x` and `y` are the quotients. */
  lemma {:induction false} GcdDivides(a: nat, b: nat) returns (x: nat, y: nat)
    requires a > 0 || b > 0
    ensures Gcd(a, b) > 0 && a == x * Gcd(a, b) && b == y * Gcd(a, b)
    decreases b
  {
    if b == 0 {
      x, y := 1, 0;
    } else {
      var g := Gcd(a, b);
      var u, v := GcdDivides(b, a % b);
      x, y := a / b * u + v, u;
      Regroups(a / b, u, v, g);
      assert a == a / b * b + a % b;
    }
  }

  lemma Regroups(q: int, u: int, v: int, g: int)
    ensures (q * u + v) * g == q * (u * g) + v * g
  {}

  /** Any common divisor `c` divides the greatest one. */
  lemma {:induction false} GcdIsGreatest(a: nat, b: nat, c: nat, x: nat, y: nat) returns (z: nat)
    requires c > 0 && a == c * x && b == c * y
    ensures Gcd(a, b) == c * z
    decreases b
  {
    if b == 0 {
      z := x;
    } else {
      var q := a / b;
      var r := x - q * y;
      assert a % b == a - q * b;
      assert c * r == c * x - q * (c * y) by { Distributed(c, x, q, y); }
      Less(-1, r, c);
      z := GcdIsGreatest(b, a % b, c, y, r);
    }
  }

  lemma Distributed(c: int, x: int, q: int, y: int)
    ensures c * (x - q * y) == c * x - q * (c * y)
  {}

  function Abs(x: int): nat { if x < 0 then -x else x }

  datatype Fraction = Fraction(num: int, den: int)

  /** A fraction in lowest terms, as `big.Rat` keeps it. */
  function Lowest(n: int, d: int): Fraction
    requires d > 0
  {
    var g := Gcd(Abs(n), d);
    if g == 0 then Fraction(n, d) else Fraction(Truncated(n, g), d / g)
  }

  lemma Associative(s: int, x: int, g: int)
    ensures s * (x * g) == s * x * g
  {}

  lemma UnitFactor(m: int, g: int)
    requires g > 0 && m * g == 1
    ensures g == 1
  {
    Less(0, m, g);
    Floors(1, m, g);
  }

  /** Numbers some combination of which is 1 have no common divisor. */
  lemma Coprime(a: nat, b: nat, s: int, t: int)
    requires s * a + t * b == 1
    ensures Gcd(a, b) == 1
  {
    var g := Gcd(a, b);
    assert a > 0 || b > 0;
    var x, y := GcdDivides(a, b);
    Associative(s, x, g);
    Associative(t, y, g);
    var m, n := s * x, t * y;
    assert m * g + n * g == (m + n) * g;
    UnitFactor(m + n, g);
  }

  /** Cancelling the common factor `g`. */
  lemma LowestIs(n: int, d: int) returns (g: nat)
    requires d > 0
    ensures var f := Lowest(n, d);
            g == Gcd(Abs(n), d) > 0 && f.num * g == n && f.den * g == d && 0 < f.den <= d
  {
    g := Gcd(Abs(n), d);
    var x, y := GcdDivides(Abs(n), d);
    Between(x * g, g, x);
    Between(y * g, g, y);
    assert (-x) * g == -(x * g);
    Less(0, y, g);
    Floors(1, g, y);
    assert y * g == g * y;
  }

  lemma Between(n: int, d: int, q: int)
    requires d > 0 && q * d <= n < q * d + d
    ensures n / d == q
  {
    FloorIs(n, d);
    assert q * d + d == (q + 1) * d;
    Less(n / d, q + 1, d);
    Less(q, n / d + 1, d);
  }

  lemma AbsOfProduct(x: int, g: nat)
    ensures Abs(x * g) == Abs(x) * g
  {
    if x < 0 {
      assert (-x) * g == -(x * g);
      Floors(x, 0, g);
    } else {
      Floors(0, x, g);
    }
  }

  /** Nothing but 1 divides both parts of a fraction in lowest terms. */
  lemma LowestIsLowest(n: int, d: int, c: nat, x: nat, y: nat)
    requires d > 0 && c > 0 && Abs(Lowest(n, d).num) == c * x && Lowest(n, d).den == c * y
    ensures c == 1
  {
    var g := LowestIs(n, d);
    AbsOfProduct(Lowest(n, d).num, g);
    Associates(c, x, g);
    Associates(c, y, g);
    Floors(1, c, g);
    var z := GcdIsGreatest(Abs(n), d, c * g, x, y);
    assert 0 * (c * g) < z * (c * g);
    Less(0, z, c * g);
    Floors(1, z, c * g);
    Less(c, 2, g);
  }

  lemma Associates(c: int, x: int, g: int)
    ensures c * x * g == c * g * x
  {}

  /** Reducing a fraction does not change its quotient. */
  lemma LowestQuotient(n: int, d: int)
    requires d > 0
    ensures Lowest(n, d).den > 0 && Truncated(Lowest(n, d).num, Lowest(n, d).den) == Truncated(n, d)
  {
    var g := LowestIs(n, d);
    var f := Lowest(n, d);
    AbsOfProduct(f.num, g);
    SameQuotient(Abs(f.num), f.den, g);
    if f.num >= 0 { Floors(0, f.num, g); } else { Floors(f.num, -1, g); }
  }

  lemma SameQuotient(n: nat, d: nat, g: nat)
    requires d > 0 && g > 0
    ensures d * g > 0 && n * g / (d * g) == n / d
  {
    Floors(1, d, g);
    FloorIs(n, d);
    var q := n / d;
    Floors(q * d, n, g);
    Floors(n + 1, q * d + d, g);
    assert q * d * g == q * (d * g);
    assert (q * d + d) * g == q * d * g + d * g;
    assert (n + 1) * g == n * g + g;
    Between(n * g, d * g, q);
  }
}
