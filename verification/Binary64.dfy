/** The quotient of two integers as Python computes it: the binary64 number nearest to the exact
    quotient, ties going to the even significand, and an overflow error beyond the largest finite
    number.

    Every finite nonnegative number of a binary format is a whole multiple of its least positive
    number, 2^-1074 for binary64, and is written here as that multiple: the natural number `v` stands
    for v * 2^-unitBits. The lemmas hold for any format, `BINARY64` is the one Python uses. */
module Binary64 {
  import opened Outcomes

  function Pow2(n: nat): (p: nat)
    ensures p >= 1
  {
    if n == 0 then 1 else 2 * Pow2(n - 1)
  }

  // Digits of the significand, the place of the unit 1, and one past the largest exponent, the last
  // two counted from the least positive number.
  datatype Format = Format(digits: nat, unitBits: nat, overflowBits: nat) {
    predicate Valid() { 1 <= digits <= unitBits && unitBits + digits < overflowBits }
  }

  // The one format with 53 digits, least number 2^-1074 and largest numbers below 2^1024. The sizes
  // are stated doubled so that the prover meets them as plain numbers, never as exponents to expand.
  type Double = f: Format | 2 * f.digits == 106 && 2 * f.unitBits == 2148 && 2 * f.overflowBits == 4196
    witness Format(53, 1074, 2098)

  const BINARY64: Double
  const TWO_TO_THE_53: nat := 0x20_0000_0000_0000

  function One(fmt: Format): (unit: nat)
    ensures unit >= 1
  {
    Pow2(fmt.unitBits)
  }

  function Scaled(significand: nat, shift: nat): nat { significand * Pow2(shift) }

  // The finite nonnegative numbers: short significands over a bounded exponent.
  ghost predicate Representable(fmt: Format, v: nat) {
    exists significand: nat, shift: nat ::
      significand < Pow2(fmt.digits) && shift + fmt.digits <= fmt.overflowBits && v == Scaled(significand, shift)
  }

  // The number of binary digits of f.
  function Bits(f: nat): nat { if f == 0 then 0 else 1 + Bits(f / 2) }

  // p/q to the nearest integer, a tie going to the even one.
  function RoundHalfEven(p: nat, q: nat): nat
    requires q > 0
  {
    var low, rest := p / q, p % q;
    if 2 * rest < q || (2 * rest == q && low % 2 == 0) then low else low + 1
  }

  // How many low digits of the unit grid a quotient with integer part f has to give up.
  function Excess(fmt: Format, f: nat): nat { if Bits(f) <= fmt.digits then 0 else Bits(f) - fmt.digits }

  // numerator/denominator rounded to the format's digits (fewer below the normal range).
  function RoundToGrid(fmt: Format, numerator: nat, denominator: nat): nat
    requires denominator > 0
  {
    var shift := Excess(fmt, numerator / denominator);
    RoundHalfEven(numerator, denominator * Pow2(shift)) * Pow2(shift)
  }

  // Python's a / b on nonnegative integers.
  function TrueDivide(fmt: Format, a: nat, b: nat): Result<nat, ArithmeticError>
    requires b > 0
  {
    var v := RoundToGrid(fmt, a * One(fmt), b);
    if v < Pow2(fmt.overflowBits) then Success(v) else Failure(FloatOverflow)
  }

  // The integer ceiling of p/q.
  function CeilDiv(p: nat, q: nat): nat
    requires q > 0
  {
    (p + q - 1) / q
  }

  // math.ceil and math.floor of a floating-point number.
  function Ceil(fmt: Format, v: nat): nat { CeilDiv(v, One(fmt)) }

  function Floor(fmt: Format, v: nat): nat { FloorDiv(v, One(fmt)) }

  function FloorDiv(p: nat, q: nat): nat
    requires q > 0
  {
    p / q
  }

  // Powers of two

  lemma {:induction false} Pow2Add(m: nat, n: nat)
    ensures Pow2(m + n) == Pow2(m) * Pow2(n)
  {
    if m == 0 {
    } else {
      Pow2Add(m - 1, n);
      assert Pow2(m + n) == 2 * (Pow2(m - 1) * Pow2(n));
    }
  }

  lemma Pow2Double(n: nat)
    ensures Pow2(n + 1) == 2 * Pow2(n)
  {
  }

  lemma Pow2Monotone(m: nat, n: nat)
    requires m <= n
    ensures Pow2(m) <= Pow2(n)
    ensures m < n ==> 2 * Pow2(m) <= Pow2(n)
  {
    Pow2Add(m, n - m);
    if m < n {
      assert Pow2(n - m) == 2 * Pow2(n - m - 1);
      assert Pow2(m) * Pow2(n - m) >= Pow2(m) * 2;
    } else {
      assert Pow2(0) == 1;
    }
  }

  lemma TwoToThe53()
    ensures Pow2(53) == TWO_TO_THE_53
  {
    assert Pow2(8) == 256;
    Pow2Add(8, 8);
    Pow2Add(16, 16);
    Pow2Add(16, 5);
    assert Pow2(5) == 32;
    Pow2Add(32, 21);
  }

  lemma {:induction false} BitsBound(f: nat)
    requires f > 0
    ensures Bits(f) > 0 && Pow2(Bits(f) - 1) <= f < Pow2(Bits(f))
  {
    if f == 1 {
      assert Bits(1) == 1 + Bits(0) == 1;
      assert Pow2(1) == 2 * Pow2(0) == 2;
    } else {
      BitsBound(f / 2);
      var k := Bits(f / 2);
      assert Bits(f) == k + 1;
      assert Pow2(k) == 2 * Pow2(k - 1);
      assert Pow2(k + 1) == 2 * Pow2(k);
    }
  }

  lemma BitsUnique(f: nat, k: nat)
    requires k > 0 && Pow2(k - 1) <= f < Pow2(k)
    ensures Bits(f) == k
  {
    hide Pow2, Bits;
    BitsBound(f);
    if Bits(f) < k { Pow2Monotone(Bits(f), k - 1); }
    if k < Bits(f) { Pow2Monotone(k, Bits(f) - 1); }
  }

  // Multiplication and division by a common factor

  lemma MulLess(x: int, y: int, c: int)
    requires c > 0
    ensures x < y <==> x * c < y * c
    ensures x <= y <==> x * c <= y * c
    ensures x == y <==> x * c == y * c
  {
    if x < y { assert (y - x) * c > 0; }
    if x > y { assert (x - y) * c > 0; }
  }

  lemma MulGap(x: int, y: int, c: int)
    requires c > 0 && x < y
    ensures x * c + c <= y * c
  {
    MulLess(x + 1, y, c);
  }

  lemma DivisionUnique(p: int, q: int, d: int, r: int)
    requires q > 0 && 0 <= r < q && p == d * q + r
    ensures p / q == d && p % q == r
  {
    var d', r' := p / q, p % q;
    var t, t' := d * q, d' * q;
    assert p == t' + r' && p == t + r;
    if d' < d { MulGap(d', d, q); }
    if d < d' { MulGap(d, d', q); }
  }

  lemma DivideByFactor(p: nat, q: nat, c: nat)
    requires q > 0 && c > 0
    ensures q * c > 0
    ensures (p * c) / (q * c) == p / q && (p * c) % (q * c) == (p % q) * c
  {
    MulLess(0, q, c);
    MulLess(p % q, q, c);
    MulLess(-1, p % q, c);
    assert 0 <= (p % q) * c;
    calc {
      p * c;
      (p / q * q + p % q) * c;
      p / q * (q * c) + (p % q) * c;
    }
    DivisionUnique(p * c, q * c, p / q, (p % q) * c);
  }

  // Integer rounding

  lemma RoundHalfEvenFactor(p: nat, q: nat, c: nat)
    requires q > 0 && c > 0
    ensures q * c > 0
    ensures RoundHalfEven(p * c, q * c) == RoundHalfEven(p, q)
  {
    DivideByFactor(p, q, c);
    var r := p % q;
    assert 2 * (r * c) == (2 * r) * c;
    MulLess(2 * r, q, c);
  }

  // Rounding never crosses an integer bound, and picks any integer closer than one half.
  lemma RoundHalfEvenBounds(p: nat, q: nat, x: nat)
    requires q > 0
    ensures p <= x * q ==> RoundHalfEven(p, q) <= x
    ensures p >= x * q ==> RoundHalfEven(p, q) >= x
    ensures 2 * (p - x * q) < q && 2 * (x * q - p) < q ==> RoundHalfEven(p, q) == x
  {
    var low, rest := p / q, p % q;
    var floor, bound := low * q, x * q;
    assert p == floor + rest;
    if x < low {
      MulGap(x, low, q);
    } else if low + 1 < x {
      MulGap(low + 1, x, q);
      assert (low + 1) * q == floor + q;
    } else if low + 1 == x {
      assert bound == floor + q;
    }
  }

  // No integer is nearer, and an integer that is equally near loses only to an even one.
  lemma RoundHalfEvenNearest(p: nat, q: nat, x: nat)
    requires q > 0
    ensures var n := RoundHalfEven(p, q);
      && Distance(n * q, p) <= Distance(x * q, p)
      && (x != n && Distance(n * q, p) == Distance(x * q, p) ==> n % 2 == 0 && Distance(n, x) == 1)
  {
    var low, rest := p / q, p % q;
    var floor, other := low * q, x * q;
    assert p == floor + rest;
    assert (low + 1) * q == floor + q;
    if x < low {
      MulGap(x, low, q);
    } else if x > low + 1 {
      MulGap(low + 1, x, q);
    }
  }

  function Distance(x: int, y: int): nat { if x <= y then y - x else x - y }

  // The grid of a quotient

  // The integer part of a quotient lies on its own grid's side of the last power of two below it.
  lemma ExcessBound(fmt: Format, f: nat)
    requires fmt.Valid()
    ensures Excess(fmt, f) > 0 ==> Pow2(fmt.digits - 1 + Excess(fmt, f)) <= f
    ensures f < Pow2(fmt.digits + Excess(fmt, f))
  {
    hide Pow2;
    if f > 0 {
      BitsBound(f);
      if Bits(f) <= fmt.digits { Pow2Monotone(Bits(f), fmt.digits); }
    }
  }

  lemma FloorBounds(p: nat, q: nat, x: nat)
    requires q > 0
    ensures x <= p / q ==> x * q <= p
    ensures p / q < x ==> p < x * q
  {
    var low, rest := p / q, p % q;
    var floor := low * q;
    assert p == floor + rest;
    if x <= low { MulLess(x, low, q); } else { MulGap(low, x, q); }
  }

  lemma ScaledBelow(fmt: Format, significand: nat, shift: nat, grid: nat)
    requires fmt.Valid()
    requires significand < Pow2(fmt.digits) && shift < grid
    ensures Scaled(significand, shift) < Pow2(fmt.digits - 1 + grid)
  {
    hide Pow2;
    MulLess(significand, Pow2(fmt.digits), Pow2(shift));
    Pow2Add(fmt.digits, shift);
    Pow2Monotone(fmt.digits + shift, fmt.digits - 1 + grid);
  }

  // For every finite number there is a multiple of the quotient's grid that is at least as near, the
  // number itself when it is such a multiple and strictly nearer otherwise.
  lemma NearestGridPoint(fmt: Format, p: nat, b: nat, significand: nat, shift: nat) returns (x: nat)
    requires fmt.Valid()
    requires b > 0 && significand < Pow2(fmt.digits)
    ensures var w := Scaled(significand, shift); var onGrid := x * Pow2(Excess(fmt, p / b));
      onGrid == w || (w < onGrid && w * b < onGrid * b <= p)
  {
    hide Pow2, RoundHalfEven, Bits;
    var grid := Excess(fmt, p / b);
    if shift >= grid {
      Pow2Add(shift - grid, grid);
      x := significand * Pow2(shift - grid);
      assert (significand * Pow2(shift - grid)) * Pow2(grid) == significand * (Pow2(shift - grid) * Pow2(grid));
    } else {
      x := Pow2(fmt.digits - 1);
      Pow2Add(fmt.digits - 1, grid);
      ScaledBelow(fmt, significand, shift, grid);
      ExcessBound(fmt, p / b);
      FloorBounds(p, b, x * Pow2(grid));
      MulLess(Scaled(significand, shift), x * Pow2(grid), b);
    }
  }

  lemma ProductOrder(x: nat, b: nat, g: nat)
    ensures x * (b * g) == (x * g) * b
  {
  }

  // The rounded quotient against one point x of its grid.
  lemma GridNearest(fmt: Format, p: nat, b: nat, x: nat)
    requires fmt.Valid()
    requires b > 0
    ensures var g := Pow2(Excess(fmt, p / b)); var v := RoundToGrid(fmt, p, b);
      && Distance(v * b, p) <= Distance(x * g * b, p)
      && (x * g != v && Distance(v * b, p) == Distance(x * g * b, p) ==> v % (2 * Distance(v, x * g)) == 0)
  {
    hide Pow2, RoundHalfEven, Bits;
    var g := Pow2(Excess(fmt, p / b));
    MulLess(0, b, g);
    var n := RoundHalfEven(p, b * g);
    RoundHalfEvenNearest(p, b * g, x);
    ProductOrder(n, b, g);
    ProductOrder(x, b, g);
    if x * g != n * g && Distance(n * g * b, p) == Distance(x * g * b, p) {
      EvenTie(n, x, g);
    }
  }

  lemma EvenTie(n: nat, x: nat, g: nat)
    requires g > 0 && n % 2 == 0 && Distance(n, x) == 1
    ensures Distance(n * g, x * g) == g && (n * g) % (2 * g) == 0
  {
    assert (n + 1) * g == n * g + g && (x + 1) * g == x * g + g;
    assert n == 2 * (n / 2);
    assert (2 * (n / 2)) * g == (n / 2) * (2 * g) + 0;
    DivisionUnique(n * g, 2 * g, n / 2, 0);
  }

  lemma GridValueRepresentable(fmt: Format, p: nat, b: nat)
    requires fmt.Valid()
    requires b > 0 && RoundToGrid(fmt, p, b) < Pow2(fmt.overflowBits)
    ensures Representable(fmt, RoundToGrid(fmt, p, b))
  {
    hide Pow2, RoundHalfEven, Bits;
    var grid := Excess(fmt, p / b);
    var g := Pow2(grid);
    var first, top := Pow2(fmt.digits - 1), Pow2(fmt.digits);
    MulLess(0, b, g);
    var n := RoundHalfEven(p, b * g);
    ExcessBound(fmt, p / b);
    assert n <= top by {
      Pow2Add(fmt.digits, grid);
      FloorBounds(p, b, top * g);
      ProductOrder(top, b, g);
      RoundHalfEvenBounds(p, b * g, top);
    }
    assert grid > 0 ==> first <= n by {
      if grid > 0 {
        Pow2Add(fmt.digits - 1, grid);
        FloorBounds(p, b, first * g);
        ProductOrder(first, b, g);
        RoundHalfEvenBounds(p, b * g, first);
      }
    }
    ShortProductRepresentable(fmt, n, grid);
  }

  lemma ShortProductRepresentable(fmt: Format, n: nat, grid: nat)
    requires fmt.Valid()
    requires n <= Pow2(fmt.digits) && (grid > 0 ==> Pow2(fmt.digits - 1) <= n)
    requires n * Pow2(grid) < Pow2(fmt.overflowBits)
    ensures Representable(fmt, n * Pow2(grid))
  {
    hide Pow2;
    if n < Pow2(fmt.digits) {
      ShortRepresentable(fmt, n, grid);
    } else {
      MulLess(n, Pow2(fmt.digits), Pow2(grid));
      TopRepresentable(fmt, grid);
    }
  }

  lemma ShortRepresentable(fmt: Format, n: nat, grid: nat)
    requires fmt.Valid()
    requires n < Pow2(fmt.digits) && (grid > 0 ==> Pow2(fmt.digits - 1) <= n)
    requires n * Pow2(grid) < Pow2(fmt.overflowBits)
    ensures Representable(fmt, n * Pow2(grid))
  {
    hide Pow2;
    if grid + fmt.digits > fmt.overflowBits { PastTheLargest(fmt, n, fmt.digits - 1, grid); }
    ScaledRepresentable(fmt, n, grid);
  }

  lemma TopRepresentable(fmt: Format, grid: nat)
    requires fmt.Valid()
    requires Pow2(fmt.digits) * Pow2(grid) < Pow2(fmt.overflowBits)
    ensures Representable(fmt, Pow2(fmt.digits) * Pow2(grid))
  {
    hide Pow2;
    if grid + fmt.digits >= fmt.overflowBits { PastTheLargest(fmt, Pow2(fmt.digits), fmt.digits, grid); }
    Pow2Monotone(fmt.digits - 1, fmt.digits);
    HalfTop(fmt, grid);
    ScaledRepresentable(fmt, Pow2(fmt.digits - 1), grid + 1);
  }

  lemma ScaledRepresentable(fmt: Format, significand: nat, shift: nat)
    requires fmt.Valid()
    requires significand < Pow2(fmt.digits) && shift + fmt.digits <= fmt.overflowBits
    ensures Representable(fmt, Scaled(significand, shift))
  {
    hide Pow2;
  }

  lemma PastTheLargest(fmt: Format, n: nat, bits: nat, grid: nat)
    requires fmt.Valid()
    requires Pow2(bits) <= n && bits + grid >= fmt.overflowBits
    ensures n * Pow2(grid) >= Pow2(fmt.overflowBits)
  {
    hide Pow2;
    MulLess(Pow2(bits), n, Pow2(grid));
    Pow2Add(bits, grid);
    Pow2Monotone(fmt.overflowBits, bits + grid);
  }

  lemma HalfTop(fmt: Format, grid: nat)
    requires fmt.Valid()
    ensures Pow2(fmt.digits) * Pow2(grid) == Scaled(Pow2(fmt.digits - 1), grid + 1)
  {
    hide Pow2;
    Pow2Add(fmt.digits, grid);
    Pow2Add(fmt.digits - 1, grid + 1);
  }

  /** Python's quotient is the nearest finite binary64 number, and on a tie the one whose last digit
      is even: it is an even multiple of the gap to the number it is tied with. */
  lemma {:induction false} TrueDivideIsNearest(fmt: Format, a: nat, b: nat, w: nat)
    requires fmt.Valid()
    requires b > 0 && TrueDivide(fmt, a, b).Success? && Representable(fmt, w)
    ensures var v := TrueDivide(fmt, a, b).value; var exact := a * One(fmt);
      && Representable(fmt, v)
      && Distance(v * b, exact) <= Distance(w * b, exact)
      && (w != v && Distance(v * b, exact) == Distance(w * b, exact) ==> v % (2 * Distance(v, w)) == 0)
  {
    hide Pow2, RoundHalfEven, Bits;
    var p := a * One(fmt);
    GridValueRepresentable(fmt, p, b);
    var significand: nat, shift: nat :| significand < Pow2(fmt.digits)
      && shift + fmt.digits <= fmt.overflowBits && w == Scaled(significand, shift);
    var x := NearestGridPoint(fmt, p, b, significand, shift);
    GridNearest(fmt, p, b, x);
  }

  // Ceilings of rounded quotients

  lemma CeilDivUnique(p: nat, q: nat, c: nat)
    requires q > 0
    ensures CeilDiv(p, q) == c <==> c * q - q < p <= c * q
  {
    var low, rest := (p + q - 1) / q, (p + q - 1) % q;
    var t, u := low * q, c * q;
    assert p + q - 1 == t + rest;
    if low < c { MulGap(low, c, q); } else if c < low { MulGap(c, low, q); }
  }

  lemma CeilDivFactor(p: nat, q: nat, c: nat)
    requires q > 0 && c > 0
    ensures q * c > 0 && CeilDiv(p * c, q * c) == CeilDiv(p, q)
  {
    hide CeilDiv;
    MulLess(0, q, c);
    var n := CeilDiv(p, q);
    CeilDivUnique(p, q, n);
    MulLess(n * q - q, p, c);
    MulLess(p, n * q, c);
    assert (n * q - q) * c == n * (q * c) - q * c;
    assert (n * q) * c == n * (q * c);
    CeilDivUnique(p * c, q * c, n);
  }

  lemma Exchange(x: int, y: int, z: int)
    ensures (x * y) * z == (x * z) * y == x * (y * z)
  {
  }

  lemma ScaledQuotient(a: nat, b: nat, x: nat, unit: nat)
    requires b > 0 && unit > 0
    ensures x <= a / b ==> x * unit <= a * unit / b
    ensures a / b < x ==> a * unit / b < x * unit
  {
    FloorBounds(a, b, x);
    FloorBounds(a * unit, b, x * unit);
    Exchange(x, b, unit);
    MulLess(x * b, a, unit);
    MulLess(a, x * b, unit);
  }

  // A whole quotient with k digits has k + unitBits digits on the grid of least numbers.
  lemma QuotientBits(fmt: Format, a: nat, b: nat)
    requires fmt.Valid()
    requires b > 0 && a / b > 0
    ensures Bits(a * One(fmt) / b) == Bits(a / b) + fmt.unitBits
  {
    hide Pow2, Bits;
    var k := Bits(a / b);
    BitsBound(a / b);
    ScaledQuotient(a, b, Pow2(k - 1), One(fmt));
    ScaledQuotient(a, b, Pow2(k), One(fmt));
    Pow2Add(k - 1, fmt.unitBits);
    Pow2Add(k, fmt.unitBits);
    BitsUnique(a * One(fmt) / b, k + fmt.unitBits);
  }

  // Whether base + part/b rounds to an integer beyond base.
  predicate Survives(base: nat, part: nat, b: nat) { 2 * part > b || (2 * part == b && base % 2 == 1) }

  /** When the ceiling of Python's quotient is the ceiling of the exact one: quotients of more digits
      than the format has must round to themselves, and a fractional part must be large enough to survive. */
  predicate CeilsExactly(fmt: Format, a: nat, b: nat)
    requires b > 0 && fmt.Valid()
  {
    var whole, rest := a / b, a % b;
    if Bits(whole) > fmt.digits then
      var c := CeilDiv(a, b);
      c % Pow2(Bits(whole) - fmt.digits) == 0 && c < Pow2(fmt.overflowBits - fmt.unitBits)
    else if whole == 0 then
      rest == 0 || 2 * (rest * One(fmt)) > b
    else
      var fraction := Pow2(fmt.digits - Bits(whole));
      rest == 0 || Survives(whole * fraction, rest * fraction, b)
  }

  lemma LargeQuotient(fmt: Format, a: nat, b: nat, j: nat)
    requires fmt.Valid()
    requires b > 0 && Bits(a / b) == fmt.digits + j && j > 0
    ensures b * Pow2(j) > 0
    ensures RoundToGrid(fmt, a * One(fmt), b) == (RoundHalfEven(a, b * Pow2(j)) * Pow2(j)) * One(fmt)
  {
    hide Pow2, RoundHalfEven, Bits;
    QuotientExcess(fmt, a, b);
    assert Pow2(j + fmt.unitBits) == Pow2(j) * One(fmt) by { Pow2Add(j, fmt.unitBits); }
    GridFactor(a, b, Pow2(j), One(fmt), Pow2(j + fmt.unitBits));
  }

  lemma QuotientExcess(fmt: Format, a: nat, b: nat)
    requires fmt.Valid()
    requires b > 0 && Bits(a / b) > 0
    ensures Excess(fmt, a * One(fmt) / b) == Bits(a / b) + fmt.unitBits - fmt.digits
  {
    hide Pow2;
    PositiveBits(a / b);
    QuotientBits(fmt, a, b);
  }

  lemma PositiveBits(f: nat)
    ensures Bits(f) > 0 <==> f > 0
  {
  }

  lemma GridFactor(a: nat, b: nat, g: nat, unit: nat, grid: nat)
    requires b > 0 && g > 0 && unit > 0 && grid == g * unit
    ensures b * g > 0 && b * grid > 0
    ensures RoundHalfEven(a * unit, b * grid) * grid == (RoundHalfEven(a, b * g) * g) * unit
  {
    hide RoundHalfEven, Bits;
    MulLess(0, b, g);
    Exchange(b, g, unit);
    RoundHalfEvenFactor(a, b * g, unit);
    Exchange(RoundHalfEven(a, b * g), g, unit);
  }

  lemma LargeCeiling(a: nat, b: nat, g: nat)
    requires b > 0 && g >= 2 && b * g > 0
    ensures RoundHalfEven(a, b * g) * g == CeilDiv(a, b) <==> CeilDiv(a, b) % g == 0
  {
    hide RoundHalfEven, CeilDiv;
    var c := CeilDiv(a, b);
    CeilDivUnique(a, b, c);
    if c % g == 0 {
      var x := c / g;
      assert c == x * g;
      ProductOrder(x, b, g);
      MulLess(2, g + 1, b);
      assert 2 * b <= b * g;
      RoundHalfEvenBounds(a, b * g, x);
    } else if RoundHalfEven(a, b * g) * g == c {
      DivisionUnique(c, g, RoundHalfEven(a, b * g), 0);
    }
  }

  // A quotient of few enough whole digits keeps `fraction` as the weight of its last digit.
  lemma SmallQuotient(fmt: Format, a: nat, b: nat, k: nat)
    requires fmt.Valid()
    requires b > 0 && a / b > 0 && Bits(a / b) == fmt.digits - k
    ensures k <= fmt.unitBits
    ensures RoundToGrid(fmt, a * One(fmt), b) == RoundHalfEven(a * Pow2(k), b) * Pow2(fmt.unitBits - k)
    ensures Ceil(fmt, RoundToGrid(fmt, a * One(fmt), b)) == CeilDiv(RoundHalfEven(a * Pow2(k), b), Pow2(k))
  {
    hide Pow2, RoundHalfEven, CeilDiv, Bits;
    PositiveBits(a / b);
    QuotientExcess(fmt, a, b);
    assert One(fmt) == Pow2(k) * Pow2(fmt.unitBits - k) by { Pow2Add(k, fmt.unitBits - k); }
    FractionFactor(a, b, Pow2(k), Pow2(fmt.unitBits - k), One(fmt));
  }

  lemma FractionFactor(a: nat, b: nat, fraction: nat, g: nat, unit: nat)
    requires b > 0 && fraction > 0 && g > 0 && unit == fraction * g
    ensures b * g > 0 && RoundHalfEven(a * unit, b * g) == RoundHalfEven(a * fraction, b)
    ensures unit > 0 && CeilDiv(RoundHalfEven(a * fraction, b) * g, unit) == CeilDiv(RoundHalfEven(a * fraction, b), fraction)
  {
    hide RoundHalfEven, CeilDiv;
    Exchange(a, fraction, g);
    RoundHalfEvenFactor(a * fraction, b, g);
    CeilDivFactor(RoundHalfEven(a * fraction, b), fraction, g);
  }

  lemma SmallCeiling(a: nat, b: nat, fraction: nat, whole: nat, rest: nat)
    requires b > 0 && fraction > 0 && a == whole * b + rest && rest < b
    ensures RoundHalfEven(a * fraction, b) <= CeilDiv(a, b) * fraction
    ensures CeilDiv(RoundHalfEven(a * fraction, b), fraction) == CeilDiv(a, b) <==>
      rest == 0 || Survives(whole * fraction, rest * fraction, b)
  {
    hide RoundHalfEven, CeilDiv;
    assert a * fraction == (whole * fraction) * b + rest * fraction by { SplitProduct(whole, b, rest, fraction); }
    CeilOfSplit(a, b, whole, rest);
    RoundedCeiling(whole, rest, b, fraction);
  }

  lemma CeilOfSplit(a: nat, b: nat, whole: nat, rest: nat)
    requires b > 0 && a == whole * b + rest && rest < b
    ensures CeilDiv(a, b) == if rest == 0 then whole else whole + 1
  {
    hide CeilDiv;
    assert (whole + 1) * b == whole * b + b;
    CeilDivUnique(a, b, if rest == 0 then whole else whole + 1);
  }

  lemma RoundedCeiling(whole: nat, rest: nat, b: nat, fraction: nat)
    requires b > 0 && fraction > 0 && rest < b
    ensures var n := RoundHalfEven((whole * fraction) * b + rest * fraction, b); var c := if rest == 0 then whole else whole + 1;
      n <= c * fraction && (CeilDiv(n, fraction) == c <==> rest == 0 || Survives(whole * fraction, rest * fraction, b))
  {
    hide RoundHalfEven, CeilDiv;
    assert rest * fraction <= fraction * b && (rest == 0 ==> rest * fraction == 0) by { MulLess(rest, b, fraction); }
    RoundedPart(whole * fraction, rest * fraction, b, fraction);
    CeilingOfPart(whole, fraction, RoundHalfEven((whole * fraction) * b + rest * fraction, b), rest > 0);
  }

  lemma CeilingOfPart(whole: nat, fraction: nat, n: nat, proper: bool)
    requires fraction > 0 && whole * fraction <= n <= whole * fraction + fraction
    requires !proper ==> n == whole * fraction
    ensures proper ==> n <= (whole + 1) * fraction
    ensures CeilDiv(n, fraction) == (if proper then whole + 1 else whole) <==> !proper || n > whole * fraction
  {
    hide CeilDiv;
    MulGap(whole, whole + 1, fraction);
    var c := if proper then whole + 1 else whole;
    CeilDivUnique(n, fraction, c);
    assert (whole + 1) * fraction == whole * fraction + fraction;
  }

  lemma SplitProduct(whole: nat, b: nat, rest: nat, fraction: nat)
    ensures (whole * b + rest) * fraction == (whole * fraction) * b + rest * fraction
  {
    Exchange(whole, b, fraction);
  }

  // Rounding base + part/b, a number between the integers base and base + fraction.
  lemma RoundedPart(base: nat, part: nat, b: nat, fraction: nat)
    requires b > 0 && part <= fraction * b
    ensures base <= RoundHalfEven(base * b + part, b) <= base + fraction
    ensures part == 0 ==> RoundHalfEven(base * b + part, b) == base
    ensures base < RoundHalfEven(base * b + part, b) <==> Survives(base, part, b)
  {
    hide RoundHalfEven;
    var floor := base * b;
    RoundHalfEvenBounds(floor + part, b, base);
    assert (base + fraction) * b == floor + fraction * b;
    RoundHalfEvenBounds(floor + part, b, base + fraction);
    if part < b {
      RoundedRest(base, part, b);
    } else {
      assert (base + 1) * b == floor + b;
      RoundHalfEvenBounds(floor + part, b, base + 1);
    }
  }

  lemma RoundedRest(base: nat, part: nat, b: nat)
    requires part < b
    ensures RoundHalfEven(base * b + part, b) == if Survives(base, part, b) then base + 1 else base
  {
    DivisionUnique(base * b + part, b, base, part);
  }

  lemma TinyCeiling(fmt: Format, a: nat, b: nat)
    requires fmt.Valid()
    requires 0 < a < b
    ensures RoundToGrid(fmt, a * One(fmt), b) <= One(fmt)
    ensures RoundToGrid(fmt, a * One(fmt), b) > 0 <==> 2 * (a * One(fmt)) > b
  {
    hide Pow2, RoundHalfEven, Bits, One, Excess;
    MulLess(a, b, One(fmt));
    FloorBounds(a * One(fmt), b, One(fmt));
    TinyUpper(fmt, a * One(fmt), b);
    TinyPositive(fmt, a * One(fmt), b);
  }

  lemma TinyUpper(fmt: Format, p: nat, b: nat)
    requires fmt.Valid()
    requires b > 0 && p <= One(fmt) * b && p / b < One(fmt)
    ensures RoundToGrid(fmt, p, b) <= One(fmt)
  {
    hide Pow2, RoundHalfEven, Bits;
    var grid := Excess(fmt, p / b);
    PositiveBits(p / b);
    assert grid <= fmt.unitBits by {
      if p / b > 0 {
        BitsBound(p / b);
        if Bits(p / b) > fmt.unitBits { Pow2Monotone(fmt.unitBits, Bits(p / b) - 1); }
      }
    }
    Pow2Add(fmt.unitBits - grid, grid);
    GridUpper(p, b, Pow2(grid), Pow2(fmt.unitBits - grid));
  }

  lemma TinyPositive(fmt: Format, p: nat, b: nat)
    requires fmt.Valid()
    requires b > 0
    ensures RoundToGrid(fmt, p, b) > 0 <==> 2 * p > b
  {
    hide RoundHalfEven, Bits;
    var grid := Excess(fmt, p / b);
    if grid > 0 {
      ExcessBound(fmt, p / b);
      Pow2Add(fmt.digits - 1, grid);
      GridLower(p, b, Pow2(grid), Pow2(fmt.digits - 1));
      MulLess(0, RoundHalfEven(p, b * Pow2(grid)), Pow2(grid));
      FloorBounds(p, b, 1);
    } else {
      TinyRounding(p, b);
    }
  }

  lemma GridUpper(p: nat, b: nat, g: nat, bound: nat)
    requires b > 0 && g > 0 && p <= (bound * g) * b
    ensures b * g > 0 && RoundHalfEven(p, b * g) * g <= bound * g
  {
    hide RoundHalfEven, Bits;
    MulLess(0, b, g);
    ProductOrder(bound, b, g);
    RoundHalfEvenBounds(p, b * g, bound);
    MulLess(RoundHalfEven(p, b * g), bound, g);
  }

  lemma GridLower(p: nat, b: nat, g: nat, bound: nat)
    requires b > 0 && g > 0 && bound * g <= p / b
    ensures b * g > 0 && bound <= RoundHalfEven(p, b * g)
  {
    hide RoundHalfEven, Bits;
    MulLess(0, b, g);
    ProductOrder(bound, b, g);
    FloorBounds(p, b, bound * g);
    RoundHalfEvenBounds(p, b * g, bound);
  }

  lemma TinyRounding(p: nat, b: nat)
    requires b > 0
    ensures RoundHalfEven(p, b) > 0 <==> 2 * p > b
  {
    RoundHalfEvenBounds(p, b, 0);
    if p >= b { RoundHalfEvenBounds(p, b, 1); } else { DivisionUnique(p, b, 0, p); }
  }

  /** math.ceil(a / b) is the integer ceiling of a/b exactly when `CeilsExactly` says so. */
  lemma {:induction false} CeilExactIff(fmt: Format, a: nat, b: nat)
    requires fmt.Valid()
    requires b > 0
    ensures TrueDivide(fmt, a, b).Success? && Ceil(fmt, TrueDivide(fmt, a, b).value) == CeilDiv(a, b) <==> CeilsExactly(fmt, a, b)
  {
    hide Pow2, RoundHalfEven, CeilDiv;
    var whole := a / b;
    if Bits(whole) > fmt.digits {
      LargeExactIff(fmt, a, b, Bits(whole) - fmt.digits);
    } else if whole == 0 {
      assert a < b by { FloorBounds(a, b, 1); }
      DivisionUnique(a, b, 0, a);
      TinyExactIff(fmt, a, b);
    } else {
      BitsBound(whole);
      SmallExactIff(fmt, a, b, fmt.digits - Bits(whole));
    }
  }

  lemma LargeExactIff(fmt: Format, a: nat, b: nat, j: nat)
    requires fmt.Valid()
    requires b > 0 && Bits(a / b) == fmt.digits + j && j > 0
    ensures TrueDivide(fmt, a, b).Success? && Ceil(fmt, TrueDivide(fmt, a, b).value) == CeilDiv(a, b) <==> CeilsExactly(fmt, a, b)
  {
    hide Pow2, RoundHalfEven, CeilDiv, Bits;
    var g := Pow2(j);
    LargeQuotient(fmt, a, b, j);
    Pow2Double(j - 1);
    LargeCeiling(a, b, g);
    WholeCeiling(fmt, RoundHalfEven(a, b * g) * g);
  }

  // A whole number is its own ceiling, and finite when it is below the overflow bound.
  lemma WholeCeiling(fmt: Format, n: nat)
    requires fmt.Valid()
    ensures Ceil(fmt, n * One(fmt)) == n
    ensures n * One(fmt) < Pow2(fmt.overflowBits) <==> n < Pow2(fmt.overflowBits - fmt.unitBits)
  {
    hide Pow2, CeilDiv;
    CeilDivUnique(n * One(fmt), One(fmt), n);
    Pow2Add(fmt.overflowBits - fmt.unitBits, fmt.unitBits);
    MulLess(n, Pow2(fmt.overflowBits - fmt.unitBits), One(fmt));
  }

  lemma SmallExactIff(fmt: Format, a: nat, b: nat, k: nat)
    requires fmt.Valid()
    requires b > 0 && a / b > 0 && Bits(a / b) == fmt.digits - k
    ensures TrueDivide(fmt, a, b).Success? && Ceil(fmt, TrueDivide(fmt, a, b).value) == CeilDiv(a, b) <==> CeilsExactly(fmt, a, b)
  {
    hide Pow2, RoundHalfEven, CeilDiv, Bits;
    SmallCeiling(a, b, Pow2(k), a / b, a % b);
    SmallFloat(fmt, a, b, k);
  }

  lemma SmallFloat(fmt: Format, a: nat, b: nat, k: nat)
    requires fmt.Valid()
    requires b > 0 && a / b > 0 && Bits(a / b) == fmt.digits - k
    requires RoundHalfEven(a * Pow2(k), b) <= CeilDiv(a, b) * Pow2(k)
    ensures TrueDivide(fmt, a, b).Success?
    ensures Ceil(fmt, TrueDivide(fmt, a, b).value) == CeilDiv(RoundHalfEven(a * Pow2(k), b), Pow2(k))
  {
    hide Pow2, RoundHalfEven, CeilDiv, Bits;
    SmallQuotient(fmt, a, b, k);
    SmallFinite(fmt, a, b, RoundHalfEven(a * Pow2(k), b), k);
  }

  lemma SmallFinite(fmt: Format, a: nat, b: nat, n: nat, k: nat)
    requires fmt.Valid()
    requires b > 0 && a / b > 0 && Bits(a / b) == fmt.digits - k
    requires n <= CeilDiv(a, b) * Pow2(k)
    ensures n * Pow2(fmt.unitBits - k) < Pow2(fmt.overflowBits)
  {
    hide Pow2, CeilDiv, Bits;
    var c, top, g := CeilDiv(a, b), Pow2(Bits(a / b)), Pow2(fmt.unitBits - k);
    BitsBound(a / b);
    FloorBounds(a, b, top);
    CeilDivUnique(a, b, c);
    if top < c { MulGap(top, c, b); }
    MulLess(c, top, Pow2(k));
    Pow2Add(Bits(a / b), k);
    MulLess(n, Pow2(fmt.digits), g);
    Pow2Add(fmt.digits, fmt.unitBits - k);
    Pow2Monotone(fmt.digits + fmt.unitBits - k, fmt.overflowBits);
  }

  lemma TinyExactIff(fmt: Format, a: nat, b: nat)
    requires fmt.Valid()
    requires b > 0 && a / b == 0 && a % b == a
    ensures TrueDivide(fmt, a, b).Success? && Ceil(fmt, TrueDivide(fmt, a, b).value) == CeilDiv(a, b) <==> CeilsExactly(fmt, a, b)
  {
    hide Pow2, RoundHalfEven, CeilDiv;
    Pow2Monotone(fmt.unitBits, fmt.overflowBits);
    assert Bits(0) == 0;
    if a == 0 {
      RoundHalfEvenBounds(0, b * Pow2(0), 0);
      assert Excess(fmt, 0) == 0;
      CeilDivUnique(0, b, 0);
      CeilDivUnique(0, One(fmt), 0);
    } else {
      TinyCeiling(fmt, a, b);
      CeilDivUnique(a, b, 1);
      CeilDivUnique(RoundToGrid(fmt, a * One(fmt), b), One(fmt), 1);
    }
  }

  /** When the ceiling of a finite quotient is at least the exact one: quotients of more digits than the
      format has must be rounded upwards or not at all, others must be exact. */
  predicate CeilsHighEnough(fmt: Format, a: nat, b: nat)
    requires b > 0 && fmt.Valid()
  {
    var whole := a / b;
    if Bits(whole) > fmt.digits then
      var width := b * Pow2(Bits(whole) - fmt.digits);
      width > 0 && (a % width == 0 || Survives(a / width, a % width, width))
    else CeilsExactly(fmt, a, b)
  }

  lemma {:induction false} CeilHighEnoughIff(fmt: Format, a: nat, b: nat)
    requires fmt.Valid()
    requires b > 0 && TrueDivide(fmt, a, b).Success?
    ensures Ceil(fmt, TrueDivide(fmt, a, b).value) >= CeilDiv(a, b) <==> CeilsHighEnough(fmt, a, b)
  {
    hide Pow2, RoundHalfEven, CeilDiv, Bits, CeilsExactly, Survives, TrueDivide, Ceil;
    var whole := a / b;
    if Bits(whole) > fmt.digits {
      var j := Bits(whole) - fmt.digits;
      MulLess(0, b, Pow2(j));
      LargeHighEnough(fmt, a, b, j, b * Pow2(j));
    } else {
      CeilExactIff(fmt, a, b);
      NotTooHigh(fmt, a, b);
    }
  }

  lemma LargeHighEnough(fmt: Format, a: nat, b: nat, j: nat, width: nat)
    requires fmt.Valid() && b > 0 && Bits(a / b) == fmt.digits + j && j > 0 && TrueDivide(fmt, a, b).Success?
    requires width == b * Pow2(j) && width > 0
    ensures Ceil(fmt, TrueDivide(fmt, a, b).value) >= CeilDiv(a, b) <==> a % width == 0 || Survives(a / width, a % width, width)
  {
    hide Pow2, RoundHalfEven, CeilDiv, Bits, Survives;
    var g := Pow2(j);
    var n := RoundHalfEven(a, width);
    LargeQuotient(fmt, a, b, j);
    WholeCeiling(fmt, n * g);
    CeilingAtMost(a, b, n * g);
    assert (n * g) * b == n * width by { Exchange(n, b, g); Exchange(n, g, b); }
    RoundedUp(a, width);
  }

  lemma CeilingAtMost(p: nat, q: nat, n: nat)
    requires q > 0
    ensures CeilDiv(p, q) <= n <==> p <= n * q
  {
    hide CeilDiv;
    var c := CeilDiv(p, q);
    CeilDivUnique(p, q, c);
    if n < c { MulGap(n, c, q); } else if c < n { MulGap(c, n, q); }
  }

  lemma RoundedUp(p: nat, q: nat)
    requires q > 0
    ensures RoundHalfEven(p, q) * q >= p <==> p % q == 0 || Survives(p / q, p % q, q)
  {
    var low, rest := p / q, p % q;
    assert p == low * q + rest;
    assert (low + 1) * q == low * q + q;
  }

  // A quotient that keeps all its whole digits is never rounded beyond the next integer.
  lemma NotTooHigh(fmt: Format, a: nat, b: nat)
    requires fmt.Valid() && b > 0 && Bits(a / b) <= fmt.digits && TrueDivide(fmt, a, b).Success?
    ensures Ceil(fmt, TrueDivide(fmt, a, b).value) <= CeilDiv(a, b)
  {
    hide Pow2, RoundHalfEven, CeilDiv, Bits, RoundToGrid;
    if a == 0 {
      NothingToRound(fmt, b);
    } else if a / b == 0 {
      assert a < b by { FloorBounds(a, b, 1); }
      TinyCeiling(fmt, a, b);
      CeilDivUnique(a, b, 1);
      CeilingAtMost(RoundToGrid(fmt, a * One(fmt), b), One(fmt), 1);
    } else {
      var k := fmt.digits - Bits(a / b);
      SmallCeiling(a, b, Pow2(k), a / b, a % b);
      SmallFloat(fmt, a, b, k);
      CeilingAtMost(RoundHalfEven(a * Pow2(k), b), Pow2(k), CeilDiv(a, b));
    }
  }

  lemma NothingToRound(fmt: Format, b: nat)
    requires fmt.Valid() && b > 0
    ensures Ceil(fmt, RoundToGrid(fmt, 0 * One(fmt), b)) == 0
  {
    hide Pow2, RoundHalfEven, CeilDiv;
    assert Excess(fmt, 0) == 0;
    RoundHalfEvenBounds(0, b * Pow2(0), 0);
    CeilDivUnique(0, One(fmt), 0);
  }

  /** For a dividend of at most 53 digits the ceiling is exact, except when a divisor of 2^1075 times
      the dividend or more turns the quotient into zero. */
  lemma {:induction false} CeilExactBelow(fmt: Format, a: nat, b: nat)
    requires fmt.Valid()
    requires b > 0 && a < Pow2(fmt.digits)
    ensures CeilsExactly(fmt, a, b) <==> a == 0 || 2 * (a * One(fmt)) > b
  {
    hide Pow2, CeilDiv;
    FloorBounds(a, b, 1);
    if a / b == 0 {
      DivisionUnique(a, b, 0, a);
      assert Bits(0) == 0;
    } else {
      LongDividend(fmt, a, b);
      assert a <= a * One(fmt) by { MulLess(1, One(fmt), a); }
    }
  }

  lemma LongDividend(fmt: Format, a: nat, b: nat)
    requires fmt.Valid() && 0 < b <= a < Pow2(fmt.digits) && a / b > 0
    ensures CeilsExactly(fmt, a, b)
  {
    hide Pow2, CeilDiv, Bits;
    var k := Bits(a / b);
    BitsBound(a / b);
    FloorBounds(a, b, Pow2(k - 1));
    SmallDivisor(fmt, b, k);
    RestSurvives(a / b, a % b, b, Pow2(fmt.digits - k));
  }

  lemma RestSurvives(whole: nat, rest: nat, b: nat, fraction: nat)
    requires fraction > 0 && b < 2 * fraction
    ensures rest == 0 || Survives(whole * fraction, rest * fraction, b)
  {
    if rest > 0 { MulLess(1, rest + 1, fraction); }
  }

  lemma SmallDivisor(fmt: Format, b: nat, k: nat)
    requires fmt.Valid() && k > 0 && b > 0 && Pow2(k - 1) * b < Pow2(fmt.digits)
    ensures k <= fmt.digits && b < 2 * Pow2(fmt.digits - k)
  {
    hide Pow2;
    var weight := Pow2(k - 1);
    assert b * weight < Pow2(fmt.digits);
    if k > fmt.digits {
      Pow2Monotone(fmt.digits, k - 1);
      MulLess(1, b, weight);
      assert false;
    }
    Pow2Double(fmt.digits - k);
    Pow2Add(fmt.digits - k + 1, k - 1);
    MulLess(b, Pow2(fmt.digits - k + 1), weight);
  }

  // Floors of rounded quotients

  lemma RoundedBelow(p: nat, q: nat, x: nat)
    requires q > 0 && 2 * (x * q - p) > q
    ensures RoundHalfEven(p, q) < x
  {
    var low, rest := p / q, p % q;
    var floor := low * q;
    assert p == floor + rest;
    assert (low + 1) * q == floor + q;
    if x <= low { MulLess(x, low, q); }
  }

  lemma RoundedWithin(whole: nat, rest: nat, b: nat, fraction: nat)
    requires fraction > 0 && rest < b < 2 * fraction
    ensures whole * fraction <= RoundHalfEven((whole * fraction) * b + rest * fraction, b) < whole * fraction + fraction
  {
    hide RoundHalfEven;
    var base, part := whole * fraction, rest * fraction;
    RoundHalfEvenBounds(base * b + part, b, base);
    assert (base + fraction) * b == base * b + fraction * b;
    assert fraction * b - part >= fraction by { MulGap(rest, b, fraction); }
    RoundedBelow(base * b + part, b, base + fraction);
  }

  lemma FloorOfScaled(n: nat, whole: nat, fraction: nat, g: nat)
    requires fraction > 0 && g > 0 && whole * fraction <= n < whole * fraction + fraction
    ensures fraction * g > 0 && (n * g) / (fraction * g) == whole
  {
    MulLess(0, fraction, g);
    var rest := n - whole * fraction;
    MulLess(rest, fraction, g);
    Exchange(whole, fraction, g);
    assert n * g == (whole * fraction) * g + rest * g;
    DivisionUnique(n * g, fraction * g, whole, rest * g);
  }

  lemma LongFloor(fmt: Format, a: nat, b: nat)
    requires fmt.Valid() && 0 < b <= a < Pow2(fmt.digits) && a / b > 0
    ensures TrueDivide(fmt, a, b).Success? && RoundToGrid(fmt, a * One(fmt), b) / One(fmt) == a / b
  {
    hide Pow2, CeilDiv, Bits, RoundHalfEven, RoundToGrid, Ceil, TrueDivide, One;
    var bits := Bits(a / b);
    BitsBound(a / b);
    FloorBounds(a, b, Pow2(bits - 1));
    SmallDivisor(fmt, b, bits);
    LongFloorAt(fmt, a, b, fmt.digits - bits);
  }

  lemma LongFloorAt(fmt: Format, a: nat, b: nat, k: nat)
    requires fmt.Valid() && b > 0 && a / b > 0 && Bits(a / b) == fmt.digits - k && b < 2 * Pow2(k)
    ensures TrueDivide(fmt, a, b).Success? && RoundToGrid(fmt, a * One(fmt), b) / One(fmt) == a / b
  {
    hide Pow2, CeilDiv, Bits, RoundHalfEven, RoundToGrid, Ceil, TrueDivide, One, Floor;
    SmallCeiling(a, b, Pow2(k), a / b, a % b);
    SmallFloat(fmt, a, b, k);
    SmallQuotient(fmt, a, b, k);
    SplitUnit(fmt, k);
    FloorOfRounded(a, b, Pow2(k), Pow2(fmt.unitBits - k));
  }

  lemma SplitUnit(fmt: Format, k: nat)
    requires k <= fmt.unitBits
    ensures One(fmt) == Pow2(k) * Pow2(fmt.unitBits - k)
  {
    hide Pow2;
    Pow2Add(k, fmt.unitBits - k);
  }

  lemma FloorOfRounded(a: nat, b: nat, fraction: nat, g: nat)
    requires 0 < b < 2 * fraction && g > 0
    ensures fraction * g > 0 && (RoundHalfEven(a * fraction, b) * g) / (fraction * g) == a / b
  {
    hide RoundHalfEven;
    var whole, rest := a / b, a % b;
    assert a == whole * b + rest;
    SplitProduct(whole, b, rest, fraction);
    RoundedWithin(whole, rest, b, fraction);
    FloorOfScaled(RoundHalfEven(a * fraction, b), whole, fraction, g);
  }

  lemma TinyWithin(fmt: Format, a: nat, b: nat)
    requires fmt.Valid() && 0 < a < b && a < Pow2(fmt.digits)
    ensures RoundToGrid(fmt, a * One(fmt), b) < One(fmt)
  {
    hide Pow2, RoundHalfEven, Bits, Excess;
    var p, unit := a * One(fmt), One(fmt);
    var grid := Excess(fmt, p / b);
    MulLess(a, b, unit);
    FloorBounds(p, b, unit);
    GridWithinUnit(fmt, p / b);
    GridSmall(fmt, a, b, grid);
    Pow2Add(fmt.unitBits - grid, grid);
    var x, g := Pow2(fmt.unitBits - grid), Pow2(grid);
    assert x * (b * g) == unit * b by { Exchange(x, b, g); Exchange(x, g, b); }
    assert unit * b - p == unit * (b - a);
    RoundedBelow(p, b * g, x);
    MulLess(RoundHalfEven(p, b * g), x, g);
  }

  lemma GridWithinUnit(fmt: Format, f: nat)
    requires fmt.Valid() && f < One(fmt)
    ensures Excess(fmt, f) <= fmt.unitBits
  {
    hide Pow2, Bits;
    if f > 0 {
      BitsBound(f);
      if Bits(f) > fmt.unitBits { Pow2Monotone(fmt.unitBits, Bits(f) - 1); }
    }
    PositiveBits(f);
  }

  lemma GridSmall(fmt: Format, a: nat, b: nat, grid: nat)
    requires fmt.Valid() && 0 < a < b && a < Pow2(fmt.digits) && grid == Excess(fmt, a * One(fmt) / b)
    ensures b * Pow2(grid) > 0 && 2 * (One(fmt) * (b - a)) > b * Pow2(grid)
  {
    hide Pow2, Bits, Excess, One;
    var unit, top := One(fmt), Pow2(fmt.digits);
    assert unit == Pow2(fmt.unitBits) by { UnitIs(fmt); }
    MulLess(0, b, Pow2(grid));
    if grid > 0 {
      ExcessBound(fmt, a * unit / b);
      FloorBounds(a * unit, b, Pow2(fmt.digits - 1 + grid));
      Pow2Add(fmt.digits - 1, grid);
      Pow2Double(fmt.digits - 1);
      FineGrid(Pow2(fmt.digits - 1), Pow2(grid), unit, a, b);
    } else {
      Pow2Monotone(fmt.digits, fmt.unitBits);
      PowerZero();
      UnitGrid(top, unit, a, b);
    }
  }

  lemma UnitIs(fmt: Format)
    ensures One(fmt) == Pow2(fmt.unitBits)
  {
    hide Pow2;
  }

  lemma FineGrid(half: nat, g: nat, unit: nat, a: nat, b: nat)
    requires half > 0 && g > 0 && unit > 0 && a < b && a < 2 * half && (half * g) * b <= a * unit
    ensures 2 * (unit * (b - a)) > b * g
  {
    assert (half * g) * b == (b * g) * half by { Exchange(half, g, b); Exchange(b, g, half); }
    MulLess(a, 2 * half, unit);
    assert (2 * half) * unit == (2 * unit) * half;
    MulLess(b * g, 2 * unit, half);
    AtLeastOnce(unit, b - a);
  }

  lemma AtLeastOnce(unit: nat, n: nat)
    requires n >= 1 && unit > 0
    ensures unit * n >= unit && unit * n >= n
  {
    MulLess(1, n, unit);
    MulLess(1, unit, n);
  }

  lemma UnitGrid(top: nat, unit: nat, a: nat, b: nat)
    requires 0 < top <= unit && a < top && a < b
    ensures 2 * (unit * (b - a)) > b
  {
    AtLeastOnce(unit, b - a);
    if b > top {
      var beyond := b - top;
      MulLess(beyond + 1, b - a, unit);
      assert (beyond + 1) * unit == beyond * unit + unit;
      AtLeastOnce(unit, beyond);
    }
  }

  lemma PowerZero()
    ensures Pow2(0) == 1
  {
  }

  /** For a dividend of at most 53 digits the floor of Python's quotient is the integer quotient, whatever the
      divisor. */
  lemma {:induction false} FloorExactBelow(fmt: Format, a: nat, b: nat)
    requires fmt.Valid() && b > 0 && a < Pow2(fmt.digits)
    ensures TrueDivide(fmt, a, b).Success? && Floor(fmt, TrueDivide(fmt, a, b).value) == a / b
  {
    hide Pow2, CeilDiv, Bits, RoundHalfEven, RoundToGrid;
    FloorBounds(a, b, 1);
    if a / b > 0 {
      LongFloor(fmt, a, b);
    } else {
      DivisionUnique(a, b, 0, a);
      Pow2Monotone(fmt.unitBits, fmt.overflowBits);
      if a == 0 { NothingDivided(fmt, b); } else { TinyWithin(fmt, a, b); }
      FloorBounds(RoundToGrid(fmt, a * One(fmt), b), One(fmt), 1);
    }
  }

  lemma NothingDivided(fmt: Format, b: nat)
    requires fmt.Valid() && b > 0
    ensures RoundToGrid(fmt, 0 * One(fmt), b) == 0
  {
    hide Pow2, RoundHalfEven;
    assert Excess(fmt, 0) == 0;
    RoundHalfEvenBounds(0, b * Pow2(0), 0);
  }
}
