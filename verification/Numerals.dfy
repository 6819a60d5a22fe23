/** Digits in any base, decimal numerals, and their values. */
module Numerals {
  /** The digits of `n` in base `base`, most significant first; "0" for zero. */
  function Digits(n: nat, base: nat): (ds: seq<nat>)
    requires base >= 2
    ensures |ds| >= 1
    ensures forall k :: 0 <= k < |ds| ==> ds[k] < base
    ensures n > 0 ==> ds[0] != 0
  {
    if n < base then [n]
    else
      QuotientShrinks(n, base);
      Digits(n / base, base) + [n % base]
  }

  lemma QuotientShrinks(n: nat, base: nat)
    requires 2 <= base <= n
    ensures 0 < n / base < n
  {
    var q := n / base;
    assert n == base * q + n % base;
    assert q == 0 ==> base * q == 0;
    assert base * q >= 2 * q;
  }

  /** The number that a list of digits denotes. */
  function Value(ds: seq<nat>, base: nat): nat {
    if ds == [] then 0 else Value(ds[..|ds| - 1], base) * base + ds[|ds| - 1]
  }

  lemma {:induction false} ValueOfDigits(n: nat, base: nat)
    requires base >= 2
    ensures Value(Digits(n, base), base) == n
  {
    if n >= base {
      QuotientShrinks(n, base);
      ValueOfDigits(n / base, base);
      ValueOfLonger(Digits(n / base, base), n % base, base, n / base);
      Division(n, base);
    } else {
      ValueOfLonger([], n, base, 0);
    }
  }

  lemma ValueOfLonger(ds: seq<nat>, d: nat, base: nat, v: nat)
    requires v == Value(ds, base)
    ensures Value(ds + [d], base) == v * base + d
  {
    assert (ds + [d])[..|ds|] == ds;
  }

  lemma Division(n: nat, base: nat)
    requires base >= 2
    ensures n / base * base + n % base == n
  {
  }

  /** Leading zeros do not change the value. */
  lemma {:induction false} ValueOfPadded(zeros: nat, ds: seq<nat>, base: nat)
    ensures Value(seq(zeros, _ => 0) + ds, base) == Value(ds, base)
    decreases |ds|, zeros
  {
    var all := seq(zeros, _ => 0) + ds;
    if ds != [] {
      var front := ds[..|ds| - 1];
      ValueOfPadded(zeros, front, base);
      ValueOfLonger(seq(zeros, _ => 0) + front, ds[|ds| - 1], base, Value(front, base));
      assert all == seq(zeros, _ => 0) + front + [ds[|ds| - 1]];
    } else if zeros > 0 {
      assert all[..|all| - 1] == seq(zeros - 1, _ => 0) + [];
      ValueOfPadded(zeros - 1, [], base);
    }
  }

  /** Decimal digits as text. */
  function Numeral(ds: seq<nat>): (s: string)
    requires forall k :: 0 <= k < |ds| ==> ds[k] < 10
    ensures |s| == |ds| && forall k :: 0 <= k < |ds| ==> s[k] == '0' + ds[k] as char
  {
    seq(|ds|, k requires 0 <= k < |ds| => '0' + ds[k] as char)
  }

  function Decimal(n: nat): string {
    Numeral(Digits(n, 10))
  }

  lemma NumeralsAreDistinct(a: seq<nat>, b: seq<nat>)
    requires forall k :: 0 <= k < |a| ==> a[k] < 10
    requires forall k :: 0 <= k < |b| ==> b[k] < 10
    requires Numeral(a) == Numeral(b)
    ensures a == b
  {
    forall k | 0 <= k < |a| ensures a[k] == b[k] {
      assert Numeral(a)[k] == Numeral(b)[k];
    }
  }

  /** Different numbers are written differently. */
  lemma DecimalsAreDistinct(m: nat, n: nat)
    ensures Decimal(m) == Decimal(n) <==> m == n
  {
    ValueOfDigits(m, 10);
    ValueOfDigits(n, 10);
    if Decimal(m) == Decimal(n) {
      NumeralsAreDistinct(Digits(m, 10), Digits(n, 10));
    }
  }
}
