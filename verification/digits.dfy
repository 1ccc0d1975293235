/** Fixed-width positional notation, most significant digit first. Both the
    big-endian bytes of a nonce and the hexadecimal rendering of a signature
    scalar are instances of it. */
module Digits {

  function Pow(base: nat, e: nat): (r: nat)
    ensures base > 0 ==> r > 0
  {
    if e == 0 then 1 else base * Pow(base, e - 1)
  }

  /** Every digit is a digit of `base`. */
  predicate AllBelow(base: nat, ds: seq<nat>)
  {
    forall i :: 0 <= i < |ds| ==> ds[i] < base
  }

  /** The number a most-significant-first digit string denotes. */
  function FromDigits(base: nat, ds: seq<nat>): nat
  {
    if |ds| == 0 then 0 else FromDigits(base, ds[..|ds| - 1]) * base + ds[|ds| - 1]
  }

  /** The `width` least significant digits of `n`, most significant first,
      padded with leading zeros. */
  function ToDigits(base: nat, n: nat, width: nat): (ds: seq<nat>)
    requires base >= 2
    ensures |ds| == width
    ensures AllBelow(base, ds)
  {
    if width == 0 then [] else ToDigits(base, n / base, width - 1) + [n % base]
  }

  lemma MulLeRight(a: nat, b: nat, c: nat)
    requires a <= b
    ensures a * c <= b * c
  {
  }

  lemma PowAdd(base: nat, m: nat, n: nat)
    ensures Pow(base, m + n) == Pow(base, m) * Pow(base, n)
  {
    if m > 0 {
      PowAdd(base, m - 1, n);
      assert Pow(base, m + n) == base * Pow(base, m - 1 + n);
    }
  }

  /** Division by the base undoes appending one digit. */
  lemma DivModAppend(x: nat, d: nat, base: nat)
    requires d < base
    ensures (x * base + d) / base == x
    ensures (x * base + d) % base == d
  {
    var n := x * base + d;
    var q, r := n / base, n % base;
    assert q * base + r == x * base + d;
    if q > x {
      MulLeRight(x + 1, q, base);
      assert false;
    } else if q < x {
      MulLeRight(q + 1, x, base);
      assert false;
    }
  }

  lemma DivMod(n: nat, base: nat)
    requires base > 0
    ensures (n / base) * base + n % base == n
  {
  }

  lemma FromDigitsAppend(base: nat, init: seq<nat>, d: nat)
    ensures FromDigits(base, init + [d]) == FromDigits(base, init) * base + d
  {
    assert (init + [d])[..|init|] == init;
  }

  /** Dropping the last digit of a number below `base^(k+1)` leaves one
      below `base^k`. */
  lemma QuotientBound(base: nat, n: nat, k: nat)
    requires base >= 2
    requires n < Pow(base, k + 1)
    ensures n / base < Pow(base, k)
  {
    var q := n / base;
    assert q * base <= n;
    if q >= Pow(base, k) {
      MulLeRight(Pow(base, k), q, base);
      assert false;
    }
  }

  /** A digit string of length `w` denotes a number below `base^w`. */
  lemma {:induction false} FromDigitsBound(base: nat, ds: seq<nat>)
    requires base >= 2
    requires AllBelow(base, ds)
    ensures FromDigits(base, ds) < Pow(base, |ds|)
  {
    if |ds| > 0 {
      var init, last := ds[..|ds| - 1], ds[|ds| - 1];
      forall i | 0 <= i < |init|
        ensures init[i] < base
      {
        assert init[i] == ds[i];
      }
      FromDigitsBound(base, init);
      var f, p := FromDigits(base, init), Pow(base, |init|);
      assert FromDigits(base, ds) == f * base + last;
      assert Pow(base, |ds|) == base * p;
      MulLeRight(f + 1, p, base);
      assert (f + 1) * base == f * base + base;
    }
  }

  /** Rendering a number that fits in `width` digits and reading it back
      gives the number. */
  lemma {:induction false} FromToDigits(base: nat, n: nat, width: nat)
    requires base >= 2
    requires n < Pow(base, width)
    ensures FromDigits(base, ToDigits(base, n, width)) == n
    decreases width
  {
    if width == 0 {
    } else {
      var q, r := n / base, n % base;
      QuotientBound(base, n, width - 1);
      var init := ToDigits(base, q, width - 1);
      FromToDigits(base, q, width - 1);
      var ds := init + [r];
      assert ds == ToDigits(base, n, width);
      assert ds[..|ds| - 1] == init;
      FromDigitsAppend(base, init, r);
      DivMod(n, base);
    }
  }

  /** Reading a digit string and rendering the number back at the same width
      gives the digit string: leading zeros included. */
  lemma {:induction false} ToFromDigits(base: nat, ds: seq<nat>)
    requires base >= 2
    requires AllBelow(base, ds)
    ensures ToDigits(base, FromDigits(base, ds), |ds|) == ds
  {
    if |ds| > 0 {
      var init := ds[..|ds| - 1];
      assert AllBelow(base, init);
      ToFromDigits(base, init);
      DivModAppend(FromDigits(base, init), ds[|ds| - 1], base);
      assert ds == init + [ds[|ds| - 1]];
    }
  }
}
