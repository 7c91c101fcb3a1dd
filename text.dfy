/** Decimal rendering of numbers, as `String(n)` and `padStart(w, '0')` produce it. */
module Text {

  predicate IsDigit(c: char)
  {
    '0' <= c <= '9'
  }

  function DigitChar(d: int): (c: char)
    requires 0 <= d < 10
    ensures IsDigit(c)
  {
    ['0', '1', '2', '3', '4', '5', '6', '7', '8', '9'][d]
  }

  /** `String(n)` for a natural number: its decimal digits, no leading zeros. */
  function NatText(n: nat): (s: string)
    ensures |s| >= 1
    ensures forall i :: 0 <= i < |s| ==> IsDigit(s[i])
    ensures n < 10 <==> |s| == 1
    ensures s[|s| - 1] == DigitChar(n % 10)
  {
    if n < 10 then [DigitChar(n)] else NatText(n / 10) + [DigitChar(n % 10)]
  }

  lemma DigitCharInjective(a: int, b: int)
    requires 0 <= a < 10 && 0 <= b < 10 && DigitChar(a) == DigitChar(b)
    ensures a == b
  {
  }

  /** Different numbers are written differently. */
  lemma {:induction false} NatTextInjective(a: nat, b: nat)
    requires NatText(a) == NatText(b)
    ensures a == b
  {
    var s := NatText(a);
    DigitCharInjective(a % 10, b % 10);
    if a >= 10 {
      assert NatText(a / 10) == s[..|s| - 1] == NatText(b / 10);
      NatTextInjective(a / 10, b / 10);
    }
  }

  function Zeros(n: nat): (s: string)
    ensures |s| == n
    ensures forall i :: 0 <= i < |s| ==> s[i] == '0'
  {
    if n == 0 then "" else Zeros(n - 1) + "0"
  }

  /** `String(n).padStart(width, '0')`. */
  function Padded(n: nat, width: nat): (s: string)
    ensures |s| >= width && |s| >= 1
    ensures forall i :: 0 <= i < |s| ==> IsDigit(s[i])
  {
    var digits := NatText(n);
    if |digits| < width then Zeros(width - |digits|) + digits else digits
  }

  /** `String(y)` for an integer, with a leading minus sign when negative. */
  function IntText(y: int): (s: string)
    ensures |s| >= 1
    ensures IsDigit(s[|s| - 1])
  {
    if y < 0 then "-" + NatText(-y) else NatText(y)
  }

  /** The text starts with a minus sign exactly for a negative number. */
  lemma IntTextSign(y: int)
    ensures y < 0 <==> IntText(y)[0] == '-'
  {
    if y >= 0 {
      assert IsDigit(NatText(y)[0]);
    }
  }

  lemma IntTextInjective(a: int, b: int)
    requires IntText(a) == IntText(b)
    ensures a == b
  {
    IntTextSign(a);
    IntTextSign(b);
    if a < 0 {
      var na, nb := NatText(-a), NatText(-b);
      assert IntText(a) == "-" + na && IntText(b) == "-" + nb;
      assert na == IntText(a)[1..] && nb == IntText(b)[1..];
      NatTextInjective(-a, -b);
    } else {
      NatTextInjective(a, b);
    }
  }
}
