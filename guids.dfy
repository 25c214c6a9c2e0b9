/**
 * `Guid.TryParse` and `Guid.ToString()` on 128-bit identifiers, which the
 * model represents as naturals below 2^128: the 32-digit `N` form, the
 * hyphenated `D` form and the `D` form in braces (`B`) or parentheses (`P`),
 * hexadecimal digits of either case.
 */
module Guids {
  import opened Wrappers

  function Pow16(n: nat): (r: nat)
    ensures r >= 1
  {
    if n == 0 then 1 else 16 * Pow16(n - 1)
  }

  predicate IsHexDigit(c: char)
  {
    ('0' <= c <= '9') || ('a' <= c <= 'f') || ('A' <= c <= 'F')
  }

  predicate AllHex(s: string)
  {
    forall i :: 0 <= i < |s| ==> IsHexDigit(s[i])
  }

  function HexDigitValue(c: char): (r: nat)
    requires IsHexDigit(c)
    ensures r < 16
  {
    if '0' <= c <= '9' then c as int - '0' as int
    else if 'a' <= c <= 'f' then c as int - 'a' as int + 10
    else c as int - 'A' as int + 10
  }

  /** The value of a hexadecimal numeral, most significant digit first. */
  function HexValue(s: string): (r: nat)
    requires AllHex(s)
    ensures r < Pow16(|s|)
  {
    if |s| == 0 then 0
    else
      var high := HexValue(s[..|s| - 1]);
      assert high <= Pow16(|s| - 1) - 1;
      high * 16 + HexDigitValue(s[|s| - 1])
  }

  function HexDigit(d: nat): (c: char)
    requires d < 16
    ensures IsHexDigit(c) && HexDigitValue(c) == d
  {
    if d < 10 then ('0' as int + d) as char else ('a' as int + d - 10) as char
  }

  /** The `width` lowest hexadecimal digits of `n`, lower case. */
  function ToHex(n: nat, width: nat): (r: string)
    ensures |r| == width && AllHex(r)
  {
    if width == 0 then "" else ToHex(n / 16, width - 1) + [HexDigit(n % 16)]
  }

  /** Reading back `width` digits gives `n` whenever they hold it. */
  lemma {:induction false} HexRoundTrip(n: nat, width: nat)
    requires n < Pow16(width)
    ensures HexValue(ToHex(n, width)) == n
  {
    if width > 0 {
      var s := ToHex(n, width);
      assert s[..|s| - 1] == ToHex(n / 16, width - 1);
      assert n / 16 < Pow16(width - 1);
      HexRoundTrip(n / 16, width - 1);
    }
  }

  /** The positions of the four hyphens of the `D` form. */
  predicate IsHyphenAt(i: int)
  {
    i == 8 || i == 13 || i == 18 || i == 23
  }

  /** Where the `j`-th of the 32 digits sits in the `D` form. */
  function DigitAt(j: nat): (i: nat)
    requires j < 32
    ensures i < 36 && !IsHyphenAt(i)
  {
    if j < 8 then j else if j < 12 then j + 1 else if j < 16 then j + 2 else if j < 20 then j + 3 else j + 4
  }

  /** Which digit sits at position `i` of the `D` form. */
  function DigitIndex(i: nat): (j: nat)
    requires i < 36 && !IsHyphenAt(i)
    ensures j < 32 && DigitAt(j) == i
  {
    if i < 8 then i else if i < 13 then i - 1 else if i < 18 then i - 2 else if i < 23 then i - 3 else i - 4
  }

  /** `xxxxxxxx-xxxx-xxxx-xxxx-xxxxxxxxxxxx`. */
  predicate IsHyphenated(s: string)
  {
    && |s| == 36
    && forall i :: 0 <= i < 36 ==> if IsHyphenAt(i) then s[i] == '-' else IsHexDigit(s[i])
  }

  /** The 32 digits of a hyphenated GUID. */
  function HyphenatedDigits(s: string): (r: string)
    requires IsHyphenated(s)
    ensures |r| == 32 && AllHex(r)
  {
    seq(32, j requires 0 <= j < 32 => s[DigitAt(j)])
  }

  /** `Guid.TryParse` on the `N`, `D`, `B` and `P` forms. */
  function ParseGuid(s: string): (r: Option<nat>)
    ensures r.Some? ==> r.value < Pow16(32)
  {
    if |s| == 32 && AllHex(s) then Some(HexValue(s))
    else if IsHyphenated(s) then Some(HexValue(HyphenatedDigits(s)))
    else if |s| == 38 && ((s[0] == '{' && s[37] == '}') || (s[0] == '(' && s[37] == ')')) && IsHyphenated(s[1..37])
    then Some(HexValue(HyphenatedDigits(s[1..37])))
    else None
  }

  /** `Guid.ToString()`: the `D` form in lower case. */
  function FormatGuid(g: nat): (r: string)
    ensures |r| == 36
  {
    var h := ToHex(g, 32);
    seq(36, i requires 0 <= i < 36 => if IsHyphenAt(i) then '-' else h[DigitIndex(i)])
  }

  /** Every identifier survives being written out and parsed back, so ids
    * copied from the application parse to themselves. */
  lemma ParseFormatGuid(g: nat)
    requires g < Pow16(32)
    ensures ParseGuid(FormatGuid(g)) == Some(g)
  {
    var h := ToHex(g, 32);
    var s := FormatGuid(g);
    assert IsHyphenated(s);
    assert HyphenatedDigits(s) == h;
    HexRoundTrip(g, 32);
  }
}
