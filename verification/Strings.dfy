/** Decimal numerals and the composite names built from them ("v1-0", "ratelimit:key:42"). */
module Strings {

  function Digit(d: nat): (c: char)
    requires d < 10
    ensures IsDigit(c) && c as int - '0' as int == d
  {
    ('0' as int + d) as char
  }

  predicate IsDigit(c: char) {
    '0' <= c <= '9'
  }

  predicate AllDigits(s: string) {
    forall i :: 0 <= i < |s| ==> IsDigit(s[i])
  }

  function Decimal(n: nat): (s: string)
    ensures |s| > 0 && AllDigits(s)
  {
    if n < 10 then [Digit(n)] else Decimal(n / 10) + [Digit(n % 10)]
  }

  function ParseDecimal(s: string): nat
    requires AllDigits(s)
  {
    if s == [] then 0
    else 10 * ParseDecimal(s[..|s| - 1]) + (s[|s| - 1] as int - '0' as int)
  }

  lemma {:induction false} ParseOfDecimal(n: nat)
    ensures ParseDecimal(Decimal(n)) == n
  {
    if n < 10 {
      assert Decimal(n)[..0] == [];
    } else {
      var front := Decimal(n / 10);
      assert Decimal(n)[..|Decimal(n)| - 1] == front;
      ParseOfDecimal(n / 10);
    }
  }

  /** A separator that is no digit splits a composite name in exactly one place. */
  lemma {:induction false} SeparatedNamesAreInjective(p: string, m: nat, q: string, n: nat, separator: char)
    requires !IsDigit(separator)
    requires p + [separator] + Decimal(m) == q + [separator] + Decimal(n)
    ensures p == q && m == n
  {
    var left, right := p + [separator] + Decimal(m), q + [separator] + Decimal(n);
    assert left[|p|] == separator && right[|q|] == separator;
    if |p| < |q| {
      assert false;
    } else if |q| < |p| {
      assert false;
    }
    assert p == left[..|p|] == right[..|q|] == q;
    assert Decimal(m) == left[|p| + 1..] == right[|q| + 1..] == Decimal(n);
    ParseOfDecimal(m);
    ParseOfDecimal(n);
  }

  /** Byte-wise lexicographic order, the order of Go's string comparison. */
  predicate Leq(a: string, b: string) {
    a == [] || (b != [] && (a[0] < b[0] || (a[0] == b[0] && Leq(a[1..], b[1..]))))
  }

  predicate Less(a: string, b: string) {
    Leq(a, b) && a != b
  }

  lemma LeqTotal(a: string, b: string)
    ensures Leq(a, b) || Leq(b, a)
  {
  }

  lemma {:induction false} LeqAntisymmetric(a: string, b: string)
    requires Leq(a, b) && Leq(b, a)
    ensures a == b
  {
    if a != [] {
      LeqAntisymmetric(a[1..], b[1..]);
      assert a == [a[0]] + a[1..] && b == [b[0]] + b[1..];
    }
  }

  lemma {:induction false} LeqTransitive(a: string, b: string, c: string)
    requires Leq(a, b) && Leq(b, c)
    ensures Leq(a, c)
  {
    if a != [] && a[0] == b[0] == c[0] {
      LeqTransitive(a[1..], b[1..], c[1..]);
    }
  }
}
