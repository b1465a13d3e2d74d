/**
 * `Number.prototype.toString(radix)` for non-negative integers and its inverse,
 * as used for `Date.now().toString(36)` ids and decimal renderings of counts and statuses.
 */
module Numerals {
  import Text

  /** The digit character for `d`: "0".."9", then "a".."z". */
  function Digit(d: nat): (c: char)
    requires d < 36
    ensures IsRadixDigit(c, d + 1) && DigitValue(c) == d
  {
    if d < 10 then ('0' as int + d) as char else ('a' as int + d - 10) as char
  }

  /** The value of one digit character, letters in either case (as `parseInt` reads them). */
  function DigitValue(c: char): nat {
    if '0' <= c <= '9' then c as int - '0' as int
    else if 'a' <= c <= 'z' then c as int - 'a' as int + 10
    else if 'A' <= c <= 'Z' then c as int - 'A' as int + 10
    else 0
  }

  predicate IsRadixDigit(c: char, radix: nat) {
    ('0' <= c <= '9' || 'a' <= c <= 'z') && DigitValue(c) < radix
  }

  /** Euclidean division by a radix shrinks a number that has more than one digit. */
  lemma DivideByRadix(n: nat, radix: nat)
    requires 2 <= radix <= 36 && n >= radix
    ensures 0 < n / radix < n && n % radix < radix
    ensures (n / radix) * radix + n % radix == n
  {
    var q, r := n / radix, n % radix;
    assert q * radix + r == n;
    assert q < n by {
      assert q * radix >= q * 2;
    }
  }

  /** `n.toString(radix)`: most significant digit first, no leading zeros, lower-case letters. */
  function ToRadix(n: nat, radix: nat): (s: string)
    requires 2 <= radix <= 36
    ensures |s| >= 1
    ensures forall i :: 0 <= i < |s| ==> IsRadixDigit(s[i], radix)
    ensures |s| > 1 ==> s[0] != '0'
    decreases n
  {
    if n < radix then [Digit(n)]
    else
      DivideByRadix(n, radix);
      ToRadix(n / radix, radix) + [Digit(n % radix)]
  }

  /** Reads a digit string back into its value. */
  function FromRadix(s: string, radix: nat): nat
    decreases |s|
  {
    if s == [] then 0 else FromRadix(s[..|s| - 1], radix) * radix + DigitValue(s[|s| - 1])
  }

  /** Reading a rendering back gives the number: `toString(radix)` is injective. */
  lemma {:induction false} RadixRoundTrip(n: nat, radix: nat)
    requires 2 <= radix <= 36
    ensures FromRadix(ToRadix(n, radix), radix) == n
    decreases n
  {
    if n < radix {
      assert [Digit(n)][..0] == [];
    } else {
      DivideByRadix(n, radix);
      var s := ToRadix(n / radix, radix);
      RadixRoundTrip(n / radix, radix);
      assert (s + [Digit(n % radix)])[..|s|] == s;
    }
  }

  /** Upper-casing a digit string does not change the value it denotes. */
  lemma {:induction false} UpperKeepsValue(s: string, radix: nat)
    ensures FromRadix(Text.ToUpper(s), radix) == FromRadix(s, radix)
    decreases |s|
  {
    if s != [] {
      var n := |s| - 1;
      assert Text.ToUpper(s)[..n] == Text.ToUpper(s[..n]);
      UpperKeepsValue(s[..n], radix);
    }
  }

  /** Decimal rendering of a natural number. */
  function NatToString(n: nat): string {
    ToRadix(n, 10)
  }

  /** Decimal rendering of an integer, as `String(i)` gives it. */
  function IntToString(i: int): (s: string)
    ensures |s| >= 1
  {
    if i < 0 then "-" + NatToString(-i) else NatToString(i)
  }

  /** `Date.now().toString(36).toUpperCase()`: the time stamp in upper-case base 36. */
  function Base36Upper(n: nat): (s: string)
    ensures |s| >= 1
    ensures forall i :: 0 <= i < |s| ==> '0' <= s[i] <= '9' || 'A' <= s[i] <= 'Z'
    ensures FromRadix(s, 36) == n
  {
    var lower := ToRadix(n, 36);
    RadixRoundTrip(n, 36);
    UpperKeepsValue(lower, 36);
    Text.ToUpper(lower)
  }

  /** Distinct time stamps give distinct upper-case base-36 renderings. */
  lemma Base36UpperInjective(m: nat, n: nat)
    requires Base36Upper(m) == Base36Upper(n)
    ensures m == n
  {
  }
}
