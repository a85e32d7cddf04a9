/**
 * The JavaScript built-ins the game's core relies on to turn numbers into text:
 * `Number.prototype.toString` for integers, `String.prototype.padStart` and
 * `Array.prototype.join('')`.
 */
module JsText {

  predicate IsDigit(c: char) {
    '0' <= c <= '9'
  }

  function DigitChar(d: int): (c: char)
    requires 0 <= d <= 9
    ensures IsDigit(c) && c as int - '0' as int == d
  {
    (d + '0' as int) as char
  }

  /** Decimal rendering of a natural number, without leading zeros. */
  function NatToString(n: nat): (s: string)
    ensures |s| >= 1 && forall k :: 0 <= k < |s| ==> IsDigit(s[k])
    ensures s[0] == '0' <==> n == 0
    decreases n
  {
    if n < 10 then [DigitChar(n)] else NatToString(n / 10) + [DigitChar(n % 10)]
  }

  /** `n.toString()` for an integer `n`. */
  function IntToString(i: int): string {
    if i < 0 then "-" + NatToString(-i) else NatToString(i)
  }

  /** `s.padStart(len, pad)`: pads on the left up to `len` characters. */
  function PadStart(s: string, len: nat, pad: char): (r: string)
    ensures |s| < len ==> |r| == len && r[len - |s|..] == s && forall k :: 0 <= k < len - |s| ==> r[k] == pad
    ensures |s| >= len ==> r == s
  {
    if |s| >= len then s else seq(len - |s|, _ => pad) + s
  }

  /** The value of a string of decimal digits. */
  function DigitsValue(s: string): nat
    requires forall k :: 0 <= k < |s| ==> IsDigit(s[k])
  {
    if s == [] then 0
    else
      assert IsDigit(s[|s| - 1]);
      DigitsValue(s[..|s| - 1]) * 10 + (s[|s| - 1] as int - '0' as int)
  }

  lemma {:induction false} NatToStringValue(n: nat)
    ensures DigitsValue(NatToString(n)) == n
    decreases n
  {
    var s := NatToString(n);
    if n >= 10 {
      NatToStringValue(n / 10);
      assert s[..|s| - 1] == NatToString(n / 10);
    }
  }

  /** `a.join('')` for an array of integers. */
  function Join(a: seq<int>): string {
    if a == [] then "" else Join(a[..|a| - 1]) + IntToString(a[|a| - 1])
  }

  /** Joining single-digit entries writes one character per entry. */
  lemma {:induction false} JoinSingleDigits(a: seq<int>)
    requires forall k :: 0 <= k < |a| ==> 0 <= a[k] <= 9
    ensures |Join(a)| == |a|
    ensures forall k :: 0 <= k < |a| ==> Join(a)[k] == DigitChar(a[k])
  {
    if a != [] {
      JoinSingleDigits(a[..|a| - 1]);
    }
  }

  /**
   * For arrays of single digits, comparing `join('')` strings is comparing the
   * arrays entry by entry.
   */
  lemma {:induction false} JoinEqualIffSame(a: seq<int>, b: seq<int>)
    requires forall k :: 0 <= k < |a| ==> 0 <= a[k] <= 9
    requires forall k :: 0 <= k < |b| ==> 0 <= b[k] <= 9
    ensures Join(a) == Join(b) <==> a == b
  {
    JoinSingleDigits(a);
    JoinSingleDigits(b);
    if Join(a) == Join(b) {
      forall k | 0 <= k < |a| ensures a[k] == b[k] {
        assert DigitChar(a[k]) == DigitChar(b[k]);
      }
    }
  }
}
