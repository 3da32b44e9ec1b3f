/** Decimal printing, and the properties of it that identifiers and keys built from numbers rely on. */
module Text {
  function Digit(d: nat): char
    requires d < 10
  {
    ('0' as int + d) as char
  }

  predicate IsDigit(c: char) {
    '0' <= c <= '9'
  }

  // strconv.Itoa on a non-negative number.
  function Itoa(n: nat): (s: string)
    ensures s != "" && forall i :: 0 <= i < |s| ==> IsDigit(s[i])
  {
    if n < 10 then [Digit(n)] else Itoa(n / 10) + [Digit(n % 10)]
  }

  lemma {:induction false} ItoaInjective(a: nat, b: nat)
    requires Itoa(a) == Itoa(b)
    ensures a == b
    decreases a
  {
    var s := Itoa(a);
    assert (a < 10 <==> |s| == 1) && (b < 10 <==> |s| == 1);
    if a >= 10 {
      assert s[..|s| - 1] == Itoa(a / 10) && s[..|s| - 1] == Itoa(b / 10);
      assert s[|s| - 1] == Digit(a % 10) && s[|s| - 1] == Digit(b % 10);
      ItoaInjective(a / 10, b / 10);
    } else {
      assert s[0] == Digit(a) == Digit(b);
    }
  }

  function DigitOf(c: char): nat
    requires IsDigit(c)
  {
    c as int - '0' as int
  }

  // The number that decimal digits stand for.
  function Decimal(s: string): nat
    requires forall i :: 0 <= i < |s| ==> IsDigit(s[i])
  {
    if s == "" then 0 else 10 * Decimal(s[..|s| - 1]) + DigitOf(s[|s| - 1])
  }

  /** Printing a number and reading its digits gives it back; no zero leads but that of zero itself. */
  lemma {:induction false} ItoaIsDecimal(n: nat)
    ensures Decimal(Itoa(n)) == n && (n > 0 ==> Itoa(n)[0] != '0')
    decreases n
  {
    var s := Itoa(n);
    if n >= 10 {
      ItoaIsDecimal(n / 10);
      assert s[..|s| - 1] == Itoa(n / 10) && s[|s| - 1] == Digit(n % 10) && s[0] == Itoa(n / 10)[0];
    } else {
      assert s[..0] == "";
    }
  }

  lemma ItoaSignedInjective(a: int, b: int)
    requires ItoaSigned(a) == ItoaSigned(b)
    ensures a == b
  {
    assert (ItoaSigned(a)[0] == '-' <==> a < 0) && (ItoaSigned(b)[0] == '-' <==> b < 0);
    if a < 0 {
      assert ItoaSigned(a)[1..] == Itoa(-a) && ItoaSigned(b)[1..] == Itoa(-b);
      ItoaInjective(-a, -b);
    } else {
      ItoaInjective(a, b);
    }
  }

  function ItoaSigned(n: int): string {
    if n < 0 then "-" + Itoa(-n) else Itoa(n)
  }

  // How often `x` occurs in `s`.
  function Count(s: seq<string>, x: string): (n: nat)
    ensures n <= |s|
  {
    if s == [] then 0 else Count(s[..|s| - 1], x) + (if s[|s| - 1] == x then 1 else 0)
  }

  lemma {:induction false} CountMonotone(s: seq<string>, x: string, i: nat, j: nat)
    requires i <= j <= |s|
    ensures Count(s[..i], x) <= Count(s[..j], x)
    decreases j
  {
    if i < j {
      assert s[..j][..j - 1] == s[..j - 1];
      CountMonotone(s, x, i, j - 1);
    }
  }

  // Two positions of the same text are told apart by how often it occurs before them.
  lemma CountSeparates(s: seq<string>, i: nat, j: nat)
    requires i < |s| && j < |s| && s[i] == s[j] && Count(s[..i], s[i]) == Count(s[..j], s[j])
    ensures i == j
  {
    var lo, hi := if i < j then i else j, if i < j then j else i;
    if lo < hi {
      assert s[..lo + 1][..lo] == s[..lo];
      CountMonotone(s, s[lo], lo + 1, hi);
      assert false;
    }
  }

  // The k-th occurrence exists when there are more than k of them.
  lemma {:induction false} NthOccurrence(s: seq<string>, x: string, k: nat) returns (p: nat)
    requires k < Count(s, x)
    ensures p < |s| && s[p] == x && Count(s[..p], x) == k
    decreases |s|
  {
    var n := |s| - 1;
    if s[n] == x && Count(s[..n], x) == k {
      p := n;
    } else {
      p := NthOccurrence(s[..n], x, k);
      assert s[..n][..p] == s[..p];
    }
  }
}
