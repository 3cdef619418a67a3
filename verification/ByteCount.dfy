// internal/system/filesize.go: the scaling loop of the byte formatters, in
// 64-bit unsigned arithmetic. The newtype makes every step prove that it does
// not wrap around.
module ByteCount {

  newtype uint64 = x: int | 0 <= x < 0x1_0000_0000_0000_0000

  const DECIMAL: uint64 := 1000
  const BINARY: uint64 := 1024

  function Pow(unit: nat, n: nat): nat {
    if n == 0 then 1 else unit * Pow(unit, n - 1)
  }

  // The divisor and suffix index of an amount, independently of the loop: the
  // power of the unit that is the largest not to exceed it.
  ghost predicate Scales(b: nat, unit: nat, div: nat, exp: nat) {
    div == Pow(unit, exp + 1) && div <= b < div * unit
  }

  lemma MulMono(a: nat, b: nat, c: nat)
    requires b <= c
    ensures a * b <= a * c
  {
  }

  // n is the quotient b / div throughout the loop.
  predicate IsQuotient(b: nat, div: nat, n: nat) {
    div * n <= b < div * (n + 1)
  }

  lemma MulAssoc(a: nat, b: nat, c: nat)
    ensures a * (b * c) == (a * b) * c
  {
  }

  lemma DivBounds(n: nat, unit: nat)
    requires unit > 0
    ensures unit * (n / unit) <= n && n + 1 <= unit * (n / unit + 1)
  {
    assert n == unit * (n / unit) + n % unit;
  }

  lemma QuotientStep(b: nat, div: nat, n: nat, unit: nat)
    requires unit > 0 && IsQuotient(b, div, n)
    ensures IsQuotient(b, div * unit, n / unit)
    ensures n >= unit ==> div * unit <= b
  {
    var q := n / unit;
    DivBounds(n, unit);
    MulMono(div, unit * q, n);
    MulMono(div, n + 1, unit * (q + 1));
    MulAssoc(div, unit, q);
    MulAssoc(div, unit, q + 1);
    if n >= unit {
      MulMono(div, unit, n);
    }
  }

  lemma QuotientBelow(b: nat, div: nat, n: nat, unit: nat)
    requires IsQuotient(b, div, n) && 1 <= n < unit
    ensures div <= b < div * unit
  {
    MulMono(div, 1, n);
    MulMono(div, n + 1, unit);
  }

  lemma {:induction false} PowMono(unit: nat, m: nat, n: nat)
    requires m <= n && unit > 0
    ensures 0 < Pow(unit, m) <= Pow(unit, n)
    decreases n
  {
    if n > 0 {
      PowMono(unit, if m < n then m else n - 1, n - 1);
      MulMono(Pow(unit, n - 1), 1, unit);
    }
  }

  lemma SeventhPowers()
    ensures Pow(1000, 7) > 0xFFFF_FFFF_FFFF_FFFF && Pow(1024, 7) > 0xFFFF_FFFF_FFFF_FFFF
  {
    assert Pow(1000, 1) == 1000 && Pow(1024, 1) == 1024;
    assert Pow(1000, 3) == 1000000000 && Pow(1024, 3) == 1073741824;
    assert Pow(1000, 5) == 1000000000000000 && Pow(1024, 5) == 1125899906842624;
  }

  lemma SmallExponent(unit: nat, exp: nat)
    requires unit == 1000 || unit == 1024
    requires Pow(unit, exp + 1) <= 0xFFFF_FFFF_FFFF_FFFF
    ensures exp <= 5
  {
    SeventhPowers();
    if exp > 5 {
      PowMono(unit, 7, exp + 1);
    }
  }

  // The loop common to both formatters.
  method Scale(b: uint64, unit: uint64) returns (div: uint64, exp: nat)
    requires unit == DECIMAL || unit == BINARY
    requires b >= unit
    ensures Scales(b as nat, unit as nat, div as nat, exp)
    ensures exp <= 5
  {
    div, exp := unit, 0;
    var n := b / unit;
    assert Pow(unit as nat, 1) == unit as nat * Pow(unit as nat, 0);
    QuotientStep(b as nat, 1, b as nat, unit as nat);
    while n >= unit
      invariant n >= 1 && div as nat == Pow(unit as nat, exp + 1)
      invariant IsQuotient(b as nat, div as nat, n as nat)
      decreases n
    {
      QuotientStep(b as nat, div as nat, n as nat, unit as nat);
      div := div * unit;
      exp := exp + 1;
      n := n / unit;
    }
    QuotientBelow(b as nat, div as nat, n as nat, unit as nat);
    SmallExponent(unit as nat, exp);
  }

  // The scale is unique, so the loop's answer is the only one.
  lemma ScalesUnique(b: nat, unit: nat, d: nat, m: nat, e: nat, n: nat)
    requires unit > 0 && Scales(b, unit, d, m) && Scales(b, unit, e, n)
    ensures d == e && m == n
  {
    if m < n {
      ScaleBelow(b, unit, d, m, e, n);
    } else if n < m {
      ScaleBelow(b, unit, e, n, d, m);
    }
  }

  lemma ScaleBelow(b: nat, unit: nat, d: nat, m: nat, e: nat, n: nat)
    requires unit > 0 && Scales(b, unit, d, m) && e == Pow(unit, n + 1) && e <= b
    ensures m >= n
  {
    assert Pow(unit, m + 2) == unit * d;
    if m < n {
      PowMono(unit, m + 2, n + 1);
    }
  }

  // ----- What is printed, before rounding -----

  datatype Printed = Plain(bytes: uint64) | Scaled(mantissa: real, suffix: char)

  ghost predicate Prints(b: nat, unit: nat, suffixes: string, p: Printed) {
    exists div: nat, exp: nat ::
      Scales(b, unit, div, exp) && exp < |suffixes| && p.Scaled? && p.suffix == suffixes[exp]
      && p.mantissa * div as real == b as real && 1.0 <= p.mantissa < unit as real
  }

  method ByteCountDecimal(b: uint64) returns (p: Printed)
    ensures if b < DECIMAL then p == Plain(b) else Prints(b as nat, 1000, "kMGTPE", p)
  {
    if b < DECIMAL {
      return Plain(b);
    }
    var div, exp := Scale(b, DECIMAL);
    QuotientBounds(b as nat, div as nat, 1000);
    p := Scaled(b as real / div as real, "kMGTPE"[exp]);
  }

  method ByteCountBinary(b: uint64) returns (p: Printed)
    ensures if b < BINARY then p == Plain(b) else Prints(b as nat, 1024, "KMGTPE", p)
  {
    if b < BINARY {
      return Plain(b);
    }
    var div, exp := Scale(b, BINARY);
    QuotientBounds(b as nat, div as nat, 1024);
    p := Scaled(b as real / div as real, "KMGTPE"[exp]);
  }

  lemma RealMulMono(a: real, b: real, c: real)
    requires a <= b && c >= 0.0
    ensures a * c <= b * c
  {
  }

  lemma QuotientBounds(b: nat, div: nat, unit: nat)
    requires 0 < div <= b < div * unit
    ensures 1.0 <= b as real / div as real < unit as real
    ensures b as real / div as real * div as real == b as real
  {
    var q := b as real / div as real;
    assert q * div as real == b as real;
    assert (div * unit) as real == unit as real * div as real;
    if q < 1.0 {
      RealMulMono(q, 1.0, div as real);
    } else if q >= unit as real {
      RealMulMono(unit as real, q, div as real);
    }
  }
}
