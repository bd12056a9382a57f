/**
 UTF-8 validation, proved against the encoding of section 4 of RFC 3629: accepted
 are exactly the concatenations of encoded code points, less the noncharacters.
 */
module Utf8 {
  import opened CStrings

  // ---------------------------------------------------------------- reference

  // The code points a string may hold: Unicode scalar values other than NUL, the
  // block FDD0-FDEF and the last two code points of every plane.
  predicate Good(cp: int) {
    && 0 < cp <= 0x10FFFF
    && !(0xD800 <= cp <= 0xDFFF)
    && !(0xFDD0 <= cp <= 0xFDEF)
    && cp % 0x10000 < 0xFFFE
  }

  type CodePoint = cp: int | Good(cp) witness 1

  function Encode(cp: int): (s: seq<byte>)
    requires 0 < cp <= 0x10FFFF
    ensures 1 <= |s| <= 4
  {
    if cp < 0x80 then [cp]
    else if cp < 0x800 then [0xC0 + cp / 64, 0x80 + cp % 64]
    else if cp < 0x10000 then [0xE0 + cp / 4096, 0x80 + cp / 64 % 64, 0x80 + cp % 64]
    else [0xF0 + cp / 262144, 0x80 + cp / 4096 % 64, 0x80 + cp / 64 % 64, 0x80 + cp % 64]
  }

  function EncodeAll(cps: seq<CodePoint>): seq<byte> {
    if cps == [] then [] else Encode(cps[0]) + EncodeAll(cps[1..])
  }

  ghost predicate IsUtf8(s: seq<byte>) {
    exists cps: seq<CodePoint> :: EncodeAll(cps) == s
  }

  // ---------------------------------------------------------------- recognition

  predicate IsContinuation(c: int) {
    c / 64 == 2
  }

  // What the leading byte and the continuation bytes spell.
  function Two(c0: int, c1: int): int {
    c0 % 32 * 64 + c1 % 64
  }

  function Three(c0: int, c1: int, c2: int): int {
    (c0 % 16 * 64 + c1 % 64) * 64 + c2 % 64
  }

  function Four(c0: int, c1: int, c2: int, c3: int): int {
    ((c0 % 8 * 64 + c1 % 64) * 64 + c2 % 64) * 64 + c3 % 64
  }

  function Checked(cp: int, min: int): (r: int)
    requires 0 < min
    ensures r == 0 || (r == cp && cp >= min && Good(cp))
  {
    if cp < min || !Good(cp) then 0 else cp
  }

  // The code point at the head of a string, or 0 if there is no well-formed one.
  function First(s: seq<byte>): (cp: int)
    ensures cp == 0 || Good(cp)
  {
    if s == [] || s[0] == 0 then 0
    else if s[0] < 0x80 then s[0]
    else if s[0] / 32 == 6 then
      if |s| >= 2 && IsContinuation(s[1]) then Checked(Two(s[0], s[1]), 0x80) else 0
    else if s[0] / 16 == 14 then
      if |s| >= 3 && IsContinuation(s[1]) && IsContinuation(s[2]) then Checked(Three(s[0], s[1], s[2]), 0x800) else 0
    else if s[0] / 8 == 30 then
      if |s| >= 4 && IsContinuation(s[1]) && IsContinuation(s[2]) && IsContinuation(s[3]) then
        Checked(Four(s[0], s[1], s[2], s[3]), 0x10000)
      else 0
    else 0
  }

  predicate Valid(s: seq<byte>)
    decreases |s|
  {
    s == [] || (First(s) != 0 && |Encode(First(s))| <= |s| && Valid(s[|Encode(First(s))|..]))
  }

  lemma TwoBytes(cp: int, c0: int, c1: int)
    requires 0x80 <= cp < 0x800
    ensures c0 == 0xC0 + cp / 64 && c1 == 0x80 + cp % 64
      <==> c0 / 32 == 6 && IsContinuation(c1) && Two(c0, c1) == cp
  {
  }

  lemma ThreeBytes(cp: int, c0: int, c1: int, c2: int)
    requires 0x800 <= cp < 0x10000
    ensures c0 == 0xE0 + cp / 4096 && c1 == 0x80 + cp / 64 % 64 && c2 == 0x80 + cp % 64
      <==> c0 / 16 == 14 && IsContinuation(c1) && IsContinuation(c2) && Three(c0, c1, c2) == cp
  {
    var high := cp / 64;
    assert high / 64 == cp / 4096;
  }

  lemma FourBytes(cp: int, c0: int, c1: int, c2: int, c3: int)
    requires 0x10000 <= cp <= 0x10FFFF
    ensures c0 == 0xF0 + cp / 262144 && c1 == 0x80 + cp / 4096 % 64 && c2 == 0x80 + cp / 64 % 64 && c3 == 0x80 + cp % 64
      <==> c0 / 8 == 30 && IsContinuation(c1) && IsContinuation(c2) && IsContinuation(c3) && Four(c0, c1, c2, c3) == cp
  {
    var high := cp / 64;
    var higher := high / 64;
    assert higher == cp / 4096 && higher / 64 == cp / 262144;
  }

  // A string starts with the encoding of a code point exactly when First reads it there.
  lemma FirstIsEncoded(s: seq<byte>, cp: int)
    requires Good(cp)
    ensures First(s) == cp <==> Encode(cp) <= s
  {
    if cp < 0x80 {
      assert |Encode(cp)| == 1;
    } else if cp < 0x800 {
      if |s| >= 2 {
        TwoBytes(cp, s[0], s[1]);
      }
    } else if cp < 0x10000 {
      if |s| >= 3 {
        ThreeBytes(cp, s[0], s[1], s[2]);
      }
    } else {
      if |s| >= 4 {
        FourBytes(cp, s[0], s[1], s[2], s[3]);
      }
    }
  }

  predicate IsTail(c: byte) {
    0x80 <= c <= 0xBF
  }

  // The table of section 4 of RFC 3629, byte by byte, without NUL
  predicate IsCharacter(s: seq<byte>) {
    || (|s| == 1 && 0x01 <= s[0] <= 0x7F)
    || (|s| == 2 && 0xC2 <= s[0] <= 0xDF && IsTail(s[1]))
    || (|s| == 3 && IsTail(s[2])
        && (|| (s[0] == 0xE0 && 0xA0 <= s[1] <= 0xBF) || (0xE1 <= s[0] <= 0xEC && IsTail(s[1]))
            || (s[0] == 0xED && 0x80 <= s[1] <= 0x9F) || (0xEE <= s[0] <= 0xEF && IsTail(s[1]))))
    || (|s| == 4 && IsTail(s[2]) && IsTail(s[3])
        && (|| (s[0] == 0xF0 && 0x90 <= s[1] <= 0xBF) || (0xF1 <= s[0] <= 0xF3 && IsTail(s[1]))
            || (s[0] == 0xF4 && 0x80 <= s[1] <= 0x8F)))
  }

  // U+FDD0 to U+FDEF, and the last two of each plane
  predicate IsNoncharacter(s: seq<byte>) {
    || (|s| == 3 && s[0] == 0xEF && ((s[1] == 0xB7 && 0x90 <= s[2] <= 0xAF) || (s[1] == 0xBF && s[2] >= 0xBE)))
    || (|s| == 4 && s[1] % 16 == 0xF && s[2] == 0xBF && s[3] >= 0xBE)
  }

  lemma ShortCharacters(cp: int)
    requires 0 < cp < 0x10000 && Good(cp)
    ensures IsCharacter(Encode(cp)) && !IsNoncharacter(Encode(cp))
  {
    if cp >= 0x800 {
      assert cp / 4096 * 64 + cp / 64 % 64 == cp / 64 by {
        assert cp / 64 / 64 == cp / 4096;
      }
    }
  }

  lemma LongBytes(cp: int)
    requires 0x10000 <= cp <= 0x10FFFF
    ensures var higher, high := cp / 4096, cp / 64;
      && higher == cp / 262144 * 64 + higher % 64 && high == higher * 64 + high % 64
      && cp % 0x10000 == higher % 16 * 4096 + high % 64 * 64 + cp % 64
  {
    var high := cp / 64;
    var higher := high / 64;
    assert higher == cp / 4096 && higher / 64 == cp / 262144;
  }

  lemma LongCharacters(cp: int)
    requires 0x10000 <= cp && Good(cp)
    ensures IsCharacter(Encode(cp)) && !IsNoncharacter(Encode(cp))
  {
    LongBytes(cp);
    var s := Encode(cp);
    assert s[0] == 0xF0 + cp / 262144 && s[1] == 0x80 + cp / 4096 % 64 && s[2] == 0x80 + cp / 64 % 64;
    assert s[1] % 16 == cp / 4096 % 16;
  }

  lemma ThreeIs(c0: int, c1: int, c2: int)
    requires 0xE0 <= c0 <= 0xEF && 0x80 <= c1 <= 0xBF && 0x80 <= c2 <= 0xBF
    ensures Three(c0, c1, c2) == (c0 - 0xE0) * 4096 + (c1 - 0x80) * 64 + (c2 - 0x80)
    ensures c0 / 16 == 14 && IsContinuation(c1) && IsContinuation(c2)
  {
    assert c0 % 16 == c0 - 0xE0 && c1 % 64 == c1 - 0x80 && c2 % 64 == c2 - 0x80;
  }

  lemma FourIs(c0: int, c1: int, c2: int, c3: int)
    requires 0xF0 <= c0 <= 0xF4 && 0x80 <= c1 <= 0xBF && 0x80 <= c2 <= 0xBF && 0x80 <= c3 <= 0xBF
    ensures Four(c0, c1, c2, c3) == (c0 - 0xF0) * 262144 + (c1 - 0x80) * 4096 + (c2 - 0x80) * 64 + (c3 - 0x80)
    ensures Four(c0, c1, c2, c3) % 0x10000 == c1 % 16 * 4096 + (c2 - 0x80) * 64 + (c3 - 0x80)
    ensures c0 / 8 == 30 && IsContinuation(c1) && IsContinuation(c2) && IsContinuation(c3)
  {
    assert c0 % 8 == c0 - 0xF0 && c1 % 64 == c1 - 0x80 && c2 % 64 == c2 - 0x80 && c3 % 64 == c3 - 0x80;
    var low := c1 % 16 * 4096 + (c2 - 0x80) * 64 + (c3 - 0x80);
    var q := (c0 - 0xF0) * 4 + (c1 / 16 - 8);
    assert c1 == c1 / 16 * 16 + c1 % 16;
    assert Four(c0, c1, c2, c3) == q * 0x10000 + low;
    assert 0 <= low < 0x10000;
  }

  lemma ThreeIsRead(s: seq<byte>)
    requires |s| == 3 && IsCharacter(s) && !IsNoncharacter(s)
    ensures First(s) != 0 && |Encode(First(s))| == |s|
  {
    ThreeIs(s[0], s[1], s[2]);
    hide Three, IsContinuation;
  }

  lemma FourIsRead(s: seq<byte>)
    requires |s| == 4 && IsCharacter(s) && !IsNoncharacter(s)
    ensures First(s) != 0 && |Encode(First(s))| == |s|
  {
    FourIs(s[0], s[1], s[2], s[3]);
    hide Four, IsContinuation;
  }

  lemma CharacterIsRead(s: seq<byte>)
    requires IsCharacter(s) && !IsNoncharacter(s)
    ensures First(s) != 0 && |Encode(First(s))| == |s|
  {
    if |s| == 3 {
      hide *;
      ThreeIsRead(s);
    } else if |s| == 4 {
      hide *;
      FourIsRead(s);
    }
  }

  predicate Encodes(s: seq<byte>, cp: int) {
    Good(cp) && Encode(cp) == s
  }

  // The encodings of the code points are exactly the characters of that table.
  lemma EncodingsAre(s: seq<byte>)
    ensures (exists cp: int :: Encodes(s, cp)) <==> IsCharacter(s) && !IsNoncharacter(s)
  {
    hide IsCharacter, IsNoncharacter, First;
    if cp: int :| Encodes(s, cp) {
      if cp < 0x10000 {
        ShortCharacters(cp);
      } else {
        LongCharacters(cp);
      }
    }
    if IsCharacter(s) && !IsNoncharacter(s) {
      CharacterIsRead(s);
      FirstIsEncoded(s, First(s));
      assert Encodes(s, First(s));
    }
  }

  // The recogniser accepts exactly the encodings.
  lemma {:induction false} ValidIsUtf8(s: seq<byte>)
    ensures Valid(s) <==> IsUtf8(s)
  {
    if Valid(s) {
      var cps := DecodeAll(s);
    }
    if cps: seq<CodePoint> :| EncodeAll(cps) == s {
      EncodingIsValid(cps);
    }
  }

  lemma {:induction false} DecodeAll(s: seq<byte>) returns (cps: seq<CodePoint>)
    requires Valid(s)
    ensures EncodeAll(cps) == s
    decreases |s|
  {
    if s == [] {
      cps := [];
    } else {
      FirstIsEncoded(s, First(s));
      hide First, Good, Encode;
      var rest := DecodeAll(s[|Encode(First(s))|..]);
      cps := [First(s)] + rest;
      assert cps[1..] == rest;
    }
  }

  lemma {:induction false} EncodingIsValid(cps: seq<CodePoint>)
    ensures Valid(EncodeAll(cps))
  {
    if cps != [] {
      var s := EncodeAll(cps);
      assert Encode(cps[0]) <= s;
      FirstIsEncoded(s, cps[0]);
      EncodingIsValid(cps[1..]);
      assert s[|Encode(cps[0])|..] == EncodeAll(cps[1..]);
    }
  }

  // Concatenation, and cutting between two characters.
  lemma {:induction false} ValidConcat(s: seq<byte>, t: seq<byte>)
    requires Valid(s)
    ensures Valid(s + t) <==> Valid(t)
    decreases |s|
  {
    hide *;
    if s == [] {
      assert s + t == t;
    } else {
      ValidHead(s);
      var n := |Encode(First(s))|;
      assert s <= s + t;
      assert (s + t)[n..] == s[n..] + t;
      FirstIsEncoded(s + t, First(s));
      ValidBehind(s + t);
      ValidConcat(s[n..], t);
    }
  }

  lemma ValidHead(s: seq<byte>)
    requires Valid(s) && s != []
    ensures First(s) != 0 && Good(First(s)) && [] != Encode(First(s)) <= s && Valid(s[|Encode(First(s))|..])
  {
    FirstIsEncoded(s, First(s));
  }

  lemma ValidBehind(s: seq<byte>)
    requires First(s) != 0 && Good(First(s)) && [] != Encode(First(s)) <= s
    ensures Valid(s) <==> Valid(s[|Encode(First(s))|..])
  {
  }

  // ---------------------------------------------------------------- the validator

  // The number of bytes a leading byte announces.
  function Announced(c: int): (n: int)
    ensures 1 <= n <= 4
  {
    if c < 0x80 then 1 else if c / 32 == 6 then 2 else if c / 16 == 14 then 3 else 4
  }

  // One character further on.
  lemma Accepts(s: seq<byte>)
    requires First(s) != 0
    ensures Announced(s[0]) == |Encode(First(s))| <= |s|
    ensures Valid(s) <==> Valid(s[Announced(s[0])..])
  {
    FirstIsEncoded(s, First(s));
    assert Encode(First(s))[0] == s[0];
  }

  lemma UnicodeValid(val: int)
    requires 0x80 <= val
    ensures Good(val) <==>
      val < 0x110000 && val / 0x800 != 0x1B && (val < 0xFDD0 || val > 0xFDEF) && val % 0x10000 / 2 != 0x7FFF
  {
  }

  // The body of the loop: checks the character at a position and finds its last byte.
  method Character(str: CString, at: nat) returns (ok: bool, p: nat)
    requires at < |str|
    ensures ok <==> First(str[at..]) != 0
    ensures ok ==> p == at + Announced(str[at]) - 1
  {
    hide Good;
    ghost var rest := str[at..];
    p := at;
    if Char(str, p) < 128 {
      return true, p;
    }
    if Char(str, p) / 32 == 6 {
      TwoByteMinimum(rest);
      if Char(str, p) % 32 / 2 == 0 {
        return false, p;
      }
      p := p + 1;
      return Char(str, p) / 64 == 2, p;
    }
    var min, val;
    if Char(str, p) / 16 == 14 {
      min := 0x800;
      val := Char(str, p) % 16;
    } else if Char(str, p) / 8 == 30 {
      min := 0x10000;
      val := Char(str, p) % 8;
      p := p + 1;
      if Char(str, p) / 64 != 2 {
        return false, p;
      }
      val := val * 64 + Char(str, p) % 64;
    } else {
      return false, p;
    }
    p := p + 1;
    if Char(str, p) / 64 != 2 {
      return false, p;
    }
    val := val * 64 + Char(str, p) % 64;
    p := p + 1;
    if Char(str, p) / 64 != 2 {
      return false, p;
    }
    val := val * 64 + Char(str, p) % 64;
    if val < min {
      return false, p;
    }
    UnicodeValid(val);
    ok := val < 0x110000 && val / 0x800 != 0x1B && (val < 0xFDD0 || val > 0xFDEF) && val % 0x10000 / 2 != 0x7FFF;
  }

  // avahi_utf8_valid: one pass over the bytes, never past the terminator.
  method Utf8Valid(str: CString) returns (ok: bool)
    ensures ok <==> IsUtf8(str)
  {
    ValidIsUtf8(str);
    hide *;
    ValidNothing();
    assert str[0..] == str;
    var p := 0;
    while p < |str|
      invariant 0 <= p <= |str|
      invariant Valid(str) <==> Valid(str[p..])
    {
      ghost var rest := str[p..];
      var good, last := Character(str, p);
      if !good {
        ValidHasHead(rest);
        return false;
      }
      Accepts(rest);
      ghost var n := last + 1 - p;
      assert n == Announced(rest[0]) <= |rest|;
      SliceBehind(str, p, n);
      p := last + 1;
    }
    return true;
  }

  lemma SliceBehind(s: CString, p: nat, n: nat)
    requires p + n <= |s|
    ensures s[p..][n..] == s[p + n..]
  {
  }

  lemma ValidNothing()
    ensures Valid([])
  {
  }

  lemma ValidHasHead(s: seq<byte>)
    requires s != [] && First(s) == 0
    ensures !Valid(s)
  {
  }

  // Two bytes can spell less than 0x80 only if the leading one is C0 or C1.
  lemma TwoByteMinimum(s: seq<byte>)
    requires s != [] && s[0] / 32 == 6
    ensures s[0] % 32 / 2 == 0 ==> First(s) == 0
    ensures s[0] % 32 / 2 != 0 && |s| >= 2 && IsContinuation(s[1]) ==> First(s) != 0
  {
  }

  lemma {:induction false} AsciiIsValid(t: CString)
    requires forall i :: 0 <= i < |t| ==> t[i] < 128
    ensures Valid(t)
    decreases |t|
  {
    if t != [] {
      assert First(t) == t[0] && |Encode(t[0])| == 1;
      AsciiIsValid(t[1..]);
    }
  }
}
