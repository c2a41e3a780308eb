/** Bytes and the character classes of the HTTP parser in strict mode (src/http_parser.c:138-192, 195-230, 355-384). */
module Bytes {

  // A C `char`, seen as an unsigned byte.
  type byte = c: char | c as int < 256 witness '\0'

  newtype uint64 = n: int | 0 <= n < 0x1_0000_0000_0000_0000

  newtype uint16 = n: int | 0 <= n < 0x1_0000

  const U64: int := 0x1_0000_0000_0000_0000
  const ULLONG_MAX: uint64 := 0xFFFF_FFFF_FFFF_FFFF

  const CR: byte := '\r'
  const LF: byte := '\n'

  // LOWER, `c | 0x20`: sets bit 5 of any byte, letter or not.
  function Lower(c: byte): byte {
    var n := c as int;
    if n < 32 || 64 <= n < 96 || 128 <= n < 160 || 192 <= n < 224 then (n + 32) as char else c
  }

  predicate IsAlpha(c: byte) { 'a' <= Lower(c) <= 'z' }

  predicate IsNum(c: byte) { '0' <= c <= '9' }

  predicate IsAlphaNum(c: byte) { IsAlpha(c) || IsNum(c) }

  predicate IsHex(c: byte) { IsNum(c) || 'a' <= Lower(c) <= 'f' }

  predicate IsMark(c: byte) {
    c == '-' || c == '_' || c == '.' || c == '!' || c == '~' || c == '*' || c == '\'' || c == '(' || c == ')'
  }

  predicate IsUserinfoChar(c: byte) {
    IsAlphaNum(c) || IsMark(c) || c == '%' || c == ';' || c == ':' || c == '&' || c == '=' || c == '+' || c == '$'
    || c == ','
  }

  // The strict `normal_url_char` table: printable ASCII other than '#' and '?'.
  predicate IsUrlChar(c: byte) { '!' <= c <= '~' && c != '#' && c != '?' }

  predicate IsHostChar(c: byte) { IsAlphaNum(c) || c == '.' || c == '-' }

  predicate IsPlainToken(c: byte) {
    'a' <= c <= 'z' || '0' <= c <= '9' || c == '!' || c == '#' || c == '$' || c == '%' || c == '&' || c == '\''
    || c == '*' || c == '+' || c == '-' || c == '.' || c == '^' || c == '_' || c == '`' || c == '|' || c == '~'
  }

  // The `tokens` table: the lower-cased token character, or NUL.
  function Token(c: byte): byte {
    if 'A' <= c <= 'Z' then (c as int + 32) as char
    else if IsPlainToken(c) then c
    else '\0'
  }

  // The `unhex` table. Only its first 128 entries are written down; the others are zero.
  function Unhex(c: byte): (v: int)
    ensures -1 <= v < 16
  {
    if '0' <= c <= '9' then c as int - '0' as int
    else if 'A' <= c <= 'F' then c as int - 'A' as int + 10
    else if 'a' <= c <= 'f' then c as int - 'a' as int + 10
    else if c as int >= 128 then 0
    else -1
  }

  predicate LineEnds(s: seq<byte>) { forall i | 0 <= i < |s| :: s[i] == CR || s[i] == LF }

  function DigitOf(c: byte): (d: nat)
    requires IsNum(c)
    ensures d < 10
  {
    c as int - '0' as int
  }
}
