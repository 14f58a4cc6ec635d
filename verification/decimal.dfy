/** Decimal printing of numbers, left padding with zeros, and reading digits back. */
module Decimal {
  predicate IsDigit(c: char) {
    '0' <= c <= '9'
  }

  predicate AllDigits(s: string) {
    forall i :: 0 <= i < |s| ==> IsDigit(s[i])
  }

  function Digit(d: nat): char
    requires d < 10
  {
    (d + 48) as char
  }

  /** The shortest decimal form. */
  function Text(n: nat): (s: string)
    ensures s != [] && AllDigits(s)
    ensures |s| > 1 ==> s[0] != '0'
  {
    if n < 10 then [Digit(n)] else Text(n / 10) + [Digit(n % 10)]
  }

  function Zeros(n: nat): (s: string)
    ensures |s| == n && AllDigits(s)
  {
    if n == 0 then [] else Zeros(n - 1) + "0"
  }

  /** `padStart(width, '0')`: longer texts are kept as they are. */
  function Pad(width: nat, s: string): string {
    if |s| >= width then s else Zeros(width - |s|) + s
  }

  /** The number a string of digits denotes. */
  function Value(s: string): nat
    requires AllDigits(s)
  {
    if s == [] then 0 else 10 * Value(s[..|s| - 1]) + (s[|s| - 1] as int - 48)
  }

  /** Reading a printed number gives it back. */
  lemma {:induction false} ValueOfText(n: nat)
    ensures Value(Text(n)) == n
  {
    if n < 10 {
      assert Text(n)[..0] == [];
      assert Value(Text(n)) == 10 * Value([]) + n;
    } else {
      var s := Text(n / 10);
      assert Text(n)[..|s|] == s;
      ValueOfText(n / 10);
    }
  }

  lemma {:induction false} ValueOfZeros(n: nat, s: string)
    requires AllDigits(s)
    ensures AllDigits(Zeros(n) + s) && Value(Zeros(n) + s) == Value(s)
  {
    if s != [] {
      var m := |s| - 1;
      assert (Zeros(n) + s)[..n + m] == Zeros(n) + s[..m];
      ValueOfZeros(n, s[..m]);
    } else if n > 0 {
      assert Zeros(n) + s == Zeros(n);
      assert Zeros(n)[..n - 1] == Zeros(n - 1);
      ValueOfZeros(n - 1, []);
      assert Zeros(n - 1) + [] == Zeros(n - 1);
    } else {
      assert Zeros(n) + s == [];
    }
  }

  lemma ValueOfPad(width: nat, n: nat)
    ensures AllDigits(Pad(width, Text(n))) && Value(Pad(width, Text(n))) == n
  {
    ValueOfText(n);
    if |Text(n)| < width { ValueOfZeros(width - |Text(n)|, Text(n)); }
  }

  /** Padded printing is injective at every width, also for numbers longer than the width. */
  lemma PadInjective(width: nat, m: nat, n: nat)
    requires Pad(width, Text(m)) == Pad(width, Text(n))
    ensures m == n
  {
    ValueOfPad(width, m);
    ValueOfPad(width, n);
  }

  /** Padded to five digits exactly up to 99999; larger numbers are printed in full. */
  lemma FiveDigits(n: nat)
    ensures |Pad(5, Text(n))| == 5 <==> n <= 99999
    ensures n > 99999 ==> Pad(5, Text(n)) == Text(n)
  {
    TextLength(n / 10);
    if n >= 10 { assert |Text(n)| == |Text(n / 10)| + 1; }
    if n / 10 < 1000 {
      TextLength(n);
    } else if n / 10 > 9999 {
      LongText(n / 10);
    }
  }

  lemma {:induction false} LongText(n: nat)
    requires n > 9999
    ensures |Text(n)| > 4
  {
    TextLength(n / 10);
    if n / 10 > 9999 { LongText(n / 10); }
  }

  /** Four digits exactly for 1000 to 9999, at most two exactly below 100. */
  lemma TextLength(n: nat)
    ensures |Text(n)| == 4 <==> 1000 <= n <= 9999
    ensures |Text(n)| <= 2 <==> n < 100
  {
    if n >= 10 {
      var a := n / 10;
      assert |Text(n)| == |Text(a)| + 1;
      if a >= 10 {
        var b := a / 10;
        assert |Text(a)| == |Text(b)| + 1;
        if b >= 10 {
          assert |Text(b)| == |Text(b / 10)| + 1;
          if b / 10 >= 10 { assert |Text(b / 10)| == |Text(b / 100)| + 1; }
        }
      }
    }
  }
}
