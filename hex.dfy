/**
 * Hexadecimal rendering of a Java `int`, as `Integer.toHexString` produces it:
 * the value read as an unsigned 32-bit number, in lowercase hexadecimal
 * digits, without leading zeros ("0" for zero).
 */
module Hex {

  /** A Java `int`. */
  type Int32 = x: int | -0x8000_0000 <= x < 0x8000_0000

  const HexDigits: string := "0123456789abcdef"

  predicate IsHexChar(ch: char) {
    '0' <= ch <= '9' || 'a' <= ch <= 'f'
  }

  predicate IsHexString(s: string) {
    forall i :: 0 <= i < |s| ==> IsHexChar(s[i])
  }

  /** The digit character for a value below 16. */
  function Digit(d: nat): (ch: char)
    requires d < 16
    ensures IsHexChar(ch)
    ensures DigitValue(ch) == d
  {
    HexDigits[d]
  }

  /** The value of a hexadecimal digit character. */
  function DigitValue(ch: char): nat
    requires IsHexChar(ch)
  {
    if '0' <= ch <= '9' then ch as nat - '0' as nat else ch as nat - 'a' as nat + 10
  }

  /** The number a string of hexadecimal digits denotes, most significant digit first. */
  function ParseHex(s: string): nat
    requires IsHexString(s)
  {
    if s == [] then 0 else ParseHex(s[..|s| - 1]) * 16 + DigitValue(s[|s| - 1])
  }

  function Pow16(k: nat): (p: nat)
    ensures p >= 1
  {
    if k == 0 then 1 else 16 * Pow16(k - 1)
  }

  /** The digits of `u` in base 16, without leading zeros. */
  function HexOf(u: nat): (s: string)
    ensures |s| >= 1 && IsHexString(s)
    ensures ParseHex(s) == u
    ensures |s| > 1 ==> s[0] != '0'
    decreases u
  {
    if u < 16 then [Digit(u)]
    else
      var high := HexOf(u / 16);
      var s := high + [Digit(u % 16)];
      assert s[..|s| - 1] == high;
      s
  }

  /** A number below 16^k has at most k hexadecimal digits. */
  lemma {:induction false} HexOfLength(u: nat, k: nat)
    requires 1 <= k && u < Pow16(k)
    ensures |HexOf(u)| <= k
    decreases k
  {
    if u >= 16 {
      HexOfLength(u / 16, k - 1);
    }
  }

  /** The unsigned reading of a Java `int` (two's complement, 32 bits). */
  function Unsigned(x: Int32): (u: nat)
    ensures u < 0x1_0000_0000
    ensures (u - x) % 0x1_0000_0000 == 0
  {
    if x < 0 then x + 0x1_0000_0000 else x
  }

  /** `Integer.toHexString(x)`: one to eight lowercase hexadecimal digits. */
  function ToHexString(x: Int32): (s: string)
    ensures 1 <= |s| <= 8
    ensures IsHexString(s)
    ensures ParseHex(s) == Unsigned(x)
    ensures |s| > 1 ==> s[0] != '0'
  {
    assert Pow16(8) == 0x1_0000_0000;
    HexOfLength(Unsigned(x), 8);
    HexOf(Unsigned(x))
  }
}
