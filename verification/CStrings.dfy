/** NUL-terminated strings: the bytes before the terminator. */
module CStrings {

  type byte = x: int | 0 <= x < 256

  type octet = x: int | 0 < x < 256 witness 1

  type CString = seq<octet>

  // Reading through a pointer into a string: the terminator may be read, nothing after it.
  function Char(s: CString, i: int): byte
    requires 0 <= i <= |s|
  {
    if i < |s| then s[i] else 0
  }

  // What a C function finds at a position of a buffer: the bytes up to the first NUL.
  ghost predicate Holds(buffer: seq<byte>, at: int, s: seq<byte>) {
    0 <= at && at + |s| < |buffer| && buffer[at..at + |s|] == s && buffer[at + |s|] == 0
  }

  const DOT: octet := '.' as int
  const BACKSLASH: octet := '\\' as int
  const UNDERSCORE: octet := '_' as int
  const HYPHEN: octet := '-' as int
  const ZERO: octet := '0' as int

  predicate IsDigit(c: byte) {
    ZERO <= c <= ZERO + 9
  }

  predicate IsUpper(c: byte) {
    'A' as int <= c <= 'Z' as int
  }

  predicate IsLower(c: byte) {
    'a' as int <= c <= 'z' as int
  }

  // tolower in the C locale
  function Lower(c: byte): byte {
    if IsUpper(c) then c + 32 else c
  }

  lemma Associative(a: CString, b: CString, c: CString)
    ensures a + (b + c) == a + b + c
  {
  }
}
