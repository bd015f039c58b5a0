/** Bytes and the character classes of the HTTP parser (strict mode). */
module HttpChars {

  type Byte = b: int | 0 <= b < 256 witness 0

  function Chr(c: char): (b: Byte)
    requires c < 128 as char
  {
    c as int
  }

  /** The bytes of an ASCII string. */
  function Bytes(s: string): (bs: seq<Byte>)
    requires forall i :: 0 <= i < |s| ==> s[i] < 128 as char
    ensures |bs| == |s| && forall i :: 0 <= i < |s| ==> bs[i] == s[i] as int
  {
    seq(|s|, i requires 0 <= i < |s| => Chr(s[i]))
  }

  const CR: Byte := 13
  const LF: Byte := 10
  const TAB: Byte := 9
  const FF: Byte := 12
  const SPACE: Byte := 32

  /** The byte with bit 5 set. */
  function Lower(b: Byte): Byte {
    if (b / 32) % 2 == 1 then b else b + 32
  }

  predicate IsAlpha(b: Byte) {
    'a' as int <= Lower(b) <= 'z' as int
  }

  predicate IsNum(b: Byte) {
    '0' as int <= b <= '9' as int
  }

  /** The number written by decimal digits. */
  function Decimal(ds: seq<Byte>): (n: int)
    ensures (forall i :: 0 <= i < |ds| ==> IsNum(ds[i])) ==> n >= 0
  {
    if ds == [] then 0 else 10 * Decimal(ds[..|ds| - 1]) + (ds[|ds| - 1] - '0' as int)
  }

  predicate IsAlphaNum(b: Byte) {
    IsAlpha(b) || IsNum(b)
  }

  predicate IsHex(b: Byte) {
    IsNum(b) || 'a' as int <= Lower(b) <= 'f' as int
  }

  predicate IsMark(b: Byte) {
    b in [45, 95, 46, 33, 126, 42, 39, 40, 41]        // - _ . ! ~ * ' ( )
  }

  predicate IsUserinfoChar(b: Byte) {
    IsAlphaNum(b) || IsMark(b) || b in [37, 59, 58, 38, 61, 43, 36, 44]   // % ; : & = + $ ,
  }

  predicate IsHostChar(b: Byte) {
    IsAlphaNum(b) || b == 46 || b == 45               // . -
  }

  /** The token character in lower case, or 0 when the byte is none. */
  function Token(b: Byte): Byte {
    if IsNum(b) then b
    else if 'a' as int <= b <= 'z' as int then b
    else if 'A' as int <= b <= 'Z' as int then b + 32
    else if b in [33, 35, 36, 37, 38, 39, 42, 43, 45, 46, 94, 95, 96, 124, 126] then b   // ! # $ % & ' * + - . ^ _ ` | ~
    else 0
  }

  /** The value of a hexadecimal digit, or -1. The table has no entries from 128 on,
      and so holds 0 there. */
  function Unhex(b: Byte): (v: int)
    ensures -1 <= v < 16
  {
    if IsNum(b) then b - '0' as int
    else if 'a' as int <= b <= 'f' as int then b - 'a' as int + 10
    else if 'A' as int <= b <= 'F' as int then b - 'A' as int + 10
    else if b >= 128 then 0
    else -1
  }

  /** Hexadecimal digits are not all that counts as one. */
  lemma HexDigit(b: Byte)
    ensures Unhex(b) >= 0 <==> IsHex(b) || b >= 128
  {
  }

  /** A tab is no tab any more once it is in lower case. */
  lemma NoLowerTab(b: Byte)
    ensures Lower(b) != TAB
  {
  }

  /** Characters of a path, query or fragment: printable ASCII but space, # and ?. */
  predicate IsUrlChar(b: Byte) {
    32 < b < 127 && b != 35 && b != 63
  }

  predicate IsHeaderChar(b: Byte) {
    b == CR || b == LF || b == TAB || (b > 31 && b != 127)
  }
}
