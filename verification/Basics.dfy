/** Notions that several modules share. */
module Basics {

  ghost predicate Distinct<T>(s: seq<T>) {
    forall i, j :: 0 <= i < j < |s| ==> s[i] != s[j]
  }

  lemma Associate<T>(a: seq<T>, b: seq<T>, c: seq<T>)
    ensures (a + b) + c == a + (b + c)
  {
  }

  lemma CancelRight<T>(a: seq<T>, b: seq<T>, c: seq<T>)
    requires a + c == b + c
    ensures a == b
  {
    assert a == (a + c)[..|a + c| - |c|];
    assert b == (b + c)[..|b + c| - |c|];
  }

  // ---- numbers as text ----

  function Digit(d: nat): char
    requires d < 10
  {
    '0' + d as char
  }

  function Decimal(n: nat): (s: string)
    ensures |s| >= 1
    ensures forall i :: 0 <= i < |s| ==> '0' <= s[i] <= '9'
  {
    if n < 10 then [Digit(n)] else Decimal(n / 10) + [Digit(n % 10)]
  }

  function CharValue(c: char): int {
    c as int - '0' as int
  }

  /** The number a decimal text stands for. */
  function ValueOf(s: string): int {
    if s == [] then 0 else 10 * ValueOf(s[..|s| - 1]) + CharValue(s[|s| - 1])
  }

  lemma {:induction false} DecimalReadsBack(n: nat)
    ensures ValueOf(Decimal(n)) == n
  {
    if n >= 10 {
      DecimalReadsBack(n / 10);
      assert Decimal(n)[..|Decimal(n)| - 1] == Decimal(n / 10);
    } else {
      assert ValueOf([]) == 0 && Decimal(n)[..0] == [];
    }
  }

  function Pow10(k: nat): nat {
    if k == 0 then 1 else 10 * Pow10(k - 1)
  }

  lemma {:induction false} DecimalLength(n: nat, k: nat)
    requires k >= 1
    ensures |Decimal(n)| > k <==> n >= Pow10(k)
    decreases n
  {
    assert Pow10(k) == 10 * Pow10(k - 1);
    Pow10Positive(k - 1);
    if n >= 10 && k > 1 {
      DecimalLength(n / 10, k - 1);
    }
  }

  lemma Pow10Positive(k: nat)
    ensures Pow10(k) >= 1
  {
  }
}
