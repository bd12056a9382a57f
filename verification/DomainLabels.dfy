/**
 One label of a domain name: reading it out of its escaped form and writing it back,
 the presentation format of section 5.1 of RFC 1035.
 */
module DomainLabels {
  import opened CStrings
  import Utf8

  // ---------------------------------------------------------------- reading

  // What stands at the head of escaped text: the end of the label, one byte of it in
  // some number of characters, or nothing sensible.
  datatype Token = Malformed | End(length: nat) | Literal(value: octet, length: nat)

  function Decimal(c0: byte, c1: byte, c2: byte): int {
    (c0 - ZERO) * 100 + (c1 - ZERO) * 10 + (c2 - ZERO)
  }

  function Head(t: CString): (k: Token)
    ensures !k.Malformed? ==> k.length <= |t|
    ensures k.Literal? ==> 0 < k.length
  {
    if t == [] then End(0)
    else if t[0] == DOT then End(1)
    else if t[0] != BACKSLASH then Literal(t[0], 1)
    else if |t| == 1 then Malformed
    else if t[1] == BACKSLASH || t[1] == DOT then Literal(t[1], 2)
    else if |t| >= 4 && IsDigit(t[1]) && IsDigit(t[2]) && IsDigit(t[3]) && 0 < Decimal(t[1], t[2], t[3]) <= 255 then
      Literal(Decimal(t[1], t[2], t[3]), 4)
    else Malformed
  }

  // A label's bytes and the text behind it.
  datatype Reading = Nothing | Label(bytes: CString, rest: CString)

  function Read(t: CString): (r: Reading)
    ensures r.Label? ==> |r.bytes| + |r.rest| <= |t| && (t != [] ==> |r.rest| < |t|)
    decreases |t|
  {
    match Head(t)
    case Malformed => Nothing
    case End(n) => Label([], t[n..])
    case Literal(c, n) =>
      match Read(t[n..])
      case Nothing => Nothing
      case Label(bytes, rest) => Label([c] + bytes, rest)
  }

  // The text behind a position that starts with some escaped bytes.
  function Prefixed(bytes: CString, r: Reading): Reading {
    if r.Nothing? then Nothing else Label(bytes + r.bytes, r.rest)
  }

  // As the library accepts it: short enough for the buffer, and UTF-8.
  function Unescape(t: CString, size: nat): (r: Reading)
    ensures r.Label? ==> r == Read(t) && |r.bytes| < size && Utf8.Valid(r.bytes)
  {
    var r := Read(t);
    if r.Label? && |r.bytes| < size && Utf8.Valid(r.bytes) then r else Nothing
  }

  // ---------------------------------------------------------------- spellings

  predicate IsDecimalDigit(c: byte) {
    '0' as int <= c <= '9' as int
  }

  // How a byte of a label may be written: as it is, unless it is a dot or a backslash, as one
  // of those behind a backslash, or as its three decimal digits behind one.
  predicate Spells(w: CString, c: octet) {
    || (w == [c] && c != '.' as int && c != '\\' as int)
    || (w == ['\\' as int, c] && (c == '.' as int || c == '\\' as int))
    || (&& |w| == 4 && w[0] == '\\' as int
        && IsDecimalDigit(w[1]) && IsDecimalDigit(w[2]) && IsDecimalDigit(w[3])
        && c == 100 * (w[1] - '0' as int) + 10 * (w[2] - '0' as int) + (w[3] - '0' as int))
  }

  ghost predicate Spelled(w: CString, bytes: CString)
    decreases |bytes|
  {
    if bytes == [] then w == []
    else exists n: nat :: n <= |w| && Spells(w[..n], bytes[0]) && Spelled(w[n..], bytes[1..])
  }

  // The spelling at the head of a text is unique.
  lemma HeadIsSpelled(t: CString, c: octet)
    ensures Head(t).Literal? ==> Spells(t[..Head(t).length], Head(t).value)
    ensures forall n: nat :: n <= |t| && Spells(t[..n], c) ==> Head(t) == Literal(c, n)
    ensures Head(t).End? <==> t == [] || t[0] == '.' as int
    ensures Head(t).End? ==> Head(t).length == if t == [] then 0 else 1
  {
  }

  // How a text goes on behind a label
  predicate Follows(t: CString, w: CString, rest: CString) {
    t == w + ([DOT] + rest) || (t == w && rest == [])
  }

  // A label is read exactly where a text starts with spellings of its bytes that a dot or the
  // end follows.
  ghost predicate IsRead(t: CString, bytes: CString, rest: CString) {
    exists w: CString :: Spelled(w, bytes) && Follows(t, w, rest)
  }

  lemma {:induction false} ReadIsSpelled(t: CString, bytes: CString, rest: CString)
    ensures Read(t) == Label(bytes, rest) <==> IsRead(t, bytes, rest)
    decreases |t|
  {
    if Read(t) == Label(bytes, rest) {
      var w := Spelling(t, bytes, rest);
    }
    if w: CString :| Spelled(w, bytes) && Follows(t, w, rest) {
      SpellingIsRead(t, w, bytes, rest);
    }
  }

  lemma ReadAhead(t: CString)
    requires Head(t).Literal?
    ensures Read(t) == Prefixed([Head(t).value], Read(t[Head(t).length..]))
  {
    hide Head;
  }

  lemma SpelledAhead(x: CString, c: octet, w: CString, bytes: CString)
    requires Spells(x, c) && Spelled(w, bytes)
    ensures Spelled(x + w, [c] + bytes)
  {
    hide Spells;
    var all := x + w;
    assert all[..|x|] == x && all[|x|..] == w && ([c] + bytes)[1..] == bytes;
  }

  lemma SpelledHead(w: CString, bytes: CString) returns (n: nat)
    requires Spelled(w, bytes) && bytes != []
    ensures 0 < n <= |w| && Spells(w[..n], bytes[0]) && Spelled(w[n..], bytes[1..])
  {
    n :| n <= |w| && Spells(w[..n], bytes[0]) && Spelled(w[n..], bytes[1..]);
    assert w[..n] != [];
  }

  // Where a label ends, and what does not read at all
  lemma ReadEnd(t: CString)
    ensures Head(t).End? ==> Read(t) == Label([], t[Head(t).length..])
    ensures Head(t).Malformed? ==> Read(t) == Nothing
    ensures forall w: CString :: Spelled(w, []) <==> w == []
  {
  }

  lemma {:induction false} Spelling(t: CString, bytes: CString, rest: CString) returns (w: CString)
    requires Read(t) == Label(bytes, rest)
    ensures Spelled(w, bytes) && Follows(t, w, rest)
    decreases |t|
  {
    hide Head, Spells, Read, Spelled;
    ReadEnd(t);
    HeadIsSpelled(t, 1);
    if Head(t).End? {
      w := [];
      assert t == [] || t == [DOT] + t[1..];
    } else {
      ReadAhead(t);
      var n, behind := Head(t).length, Read(t[Head(t).length..]);
      var more := Spelling(t[n..], behind.bytes, rest);
      w := t[..n] + more;
      SpelledAhead(t[..n], Head(t).value, more, behind.bytes);
      assert t == t[..n] + t[n..];
      Associative(t[..n], more, [DOT] + rest);
    }
  }

  lemma FollowsBehind(t: CString, w: CString, rest: CString, n: nat)
    requires Follows(t, w, rest) && n <= |w|
    ensures n <= |t| && t[..n] == w[..n] && Follows(t[n..], w[n..], rest)
  {
    assert (w + ([DOT] + rest))[n..] == w[n..] + ([DOT] + rest);
  }

  lemma FollowsNothing(t: CString, rest: CString)
    requires Follows(t, [], rest)
    ensures if t == [] then rest == t[0..] else t[0] == '.' as int && t[1..] == rest
  {
  }

  lemma {:induction false} SpellingIsRead(t: CString, w: CString, bytes: CString, rest: CString)
    requires Spelled(w, bytes) && Follows(t, w, rest)
    ensures Read(t) == Label(bytes, rest)
    decreases |bytes|
  {
    hide *;
    ReadEnd(t);
    if bytes == [] {
      FollowsNothing(t, rest);
      HeadIsSpelled(t, 1);
    } else {
      var n := SpelledHead(w, bytes);
      FollowsBehind(t, w, rest, n);
      HeadIsSpelled(t, bytes[0]);
      ReadAhead(t);
      SpellingIsRead(t[n..], w[n..], bytes[1..], rest);
      PrefixedLabel(bytes[0], bytes[1..], rest);
      assert bytes == [bytes[0]] + bytes[1..];
    }
  }

  lemma PrefixedLabel(c: octet, bytes: CString, rest: CString)
    ensures Prefixed([c], Label(bytes, rest)) == Label([c] + bytes, rest)
  {
  }

  // As the library accepts it: short enough, and UTF-8.
  lemma UnescapeIsSpelled(t: CString, size: nat, bytes: CString, rest: CString)
    ensures Unescape(t, size) == Label(bytes, rest) <==>
      IsRead(t, bytes, rest) && |bytes| < size && Utf8.IsUtf8(bytes)
  {
    ReadIsSpelled(t, bytes, rest);
    Utf8.ValidIsUtf8(bytes);
    hide Read, IsRead, Utf8.Valid, Utf8.IsUtf8;
  }

  // So any UTF-8 without dots and backslashes can be written as it is.
  lemma PlainIsRead(bytes: CString, rest: CString, size: nat)
    requires Utf8.IsUtf8(bytes) && |bytes| < size
    requires forall i :: 0 <= i < |bytes| ==> bytes[i] != '.' as int && bytes[i] != '\\' as int
    ensures Unescape(bytes + ([DOT] + rest), size) == Label(bytes, rest)
    ensures Unescape(bytes, size) == Label(bytes, [])
  {
    hide Unescape, Utf8.IsUtf8, Read, Spelled, Spells;
    PlainIsSpelled(bytes);
    UnescapeIsSpelled(bytes + ([DOT] + rest), size, bytes, rest);
    UnescapeIsSpelled(bytes, size, bytes, []);
  }

  lemma {:induction false} PlainIsSpelled(bytes: CString)
    requires forall i :: 0 <= i < |bytes| ==> bytes[i] != '.' as int && bytes[i] != '\\' as int
    ensures Spelled(bytes, bytes)
  {
    if bytes != [] {
      PlainIsSpelled(bytes[1..]);
      assert bytes[..1] == [bytes[0]];
    }
  }

  // ---------------------------------------------------------------- writing

  predicate IsProper(c: byte) {
    c == UNDERSCORE || c == HYPHEN || IsDigit(c) || IsLower(c) || IsUpper(c)
  }

  function EscapeByte(c: octet): (t: CString)
    ensures 1 <= |t| <= 4
  {
    if c == DOT || c == BACKSLASH then [BACKSLASH, c]
    else if IsProper(c) then [c]
    else [BACKSLASH, ZERO + c / 100, ZERO + c / 10 % 10, ZERO + c % 10]
  }

  // The escape of a byte is a spelling of it: the byte itself for letters, digits, hyphen and
  // underscore, two bytes for a dot and a backslash, and four for any other.
  lemma EscapeIsSpelling(c: octet)
    ensures Spells(EscapeByte(c), c)
    ensures |EscapeByte(c)| == 1 <==>
      'a' as int <= c <= 'z' as int || 'A' as int <= c <= 'Z' as int || '0' as int <= c <= '9' as int ||
      c == '-' as int || c == '_' as int
    ensures |EscapeByte(c)| == 2 <==> c == '.' as int || c == '\\' as int
    ensures |EscapeByte(c)| in {1, 2, 4}
  {
  }

  // 4n + 1 bytes always suffice.
  function Escape(bytes: CString): (t: CString)
    ensures |bytes| <= |t| <= 4 * |bytes|
  {
    if bytes == [] then [] else EscapeByte(bytes[0]) + Escape(bytes[1..])
  }

  // What fits into a buffer: whole escapes, one byte kept for the terminator.
  function Fit(bytes: CString, room: nat): (t: CString)
    requires 0 < room
    ensures |t| < room && t <= Escape(bytes)
    ensures t == Escape(bytes) <==> |Escape(bytes)| < room
  {
    if bytes == [] || |EscapeByte(bytes[0])| >= room then []
    else EscapeByte(bytes[0]) + Fit(bytes[1..], room - |EscapeByte(bytes[0])|)
  }

  // ---------------------------------------------------------------- round trip

  lemma DecimalDigits(c: byte)
    ensures ZERO + c / 100 <= ZERO + 9
    ensures Decimal(ZERO + c / 100, ZERO + c / 10 % 10, ZERO + c % 10) == c
  {
  }

  lemma HeadOfEscape(c: octet, t: CString)
    ensures Head(EscapeByte(c) + t) == Literal(c, |EscapeByte(c)|)
  {
    DecimalDigits(c);
  }

  // One escaped byte more in front of a text is one byte more in front of its label.
  lemma ReadOfEscapeByte(c: octet, t: CString)
    ensures Read(EscapeByte(c) + t) == Prefixed([c], Read(t))
  {
    HeadOfEscape(c, t);
    hide EscapeByte, Head;
    var s: CString := EscapeByte(c) + t;
    assert s[|EscapeByte(c)|..] == t;
  }

  lemma EscapeAhead(bytes: CString, t: CString)
    requires bytes != []
    ensures Escape(bytes) + t == EscapeByte(bytes[0]) + (Escape(bytes[1..]) + t)
    ensures bytes == [bytes[0]] + bytes[1..]
  {
    hide EscapeByte;
  }

  // Reading an escaped label followed by a dot or the end gives the label back and takes
  // exactly its text and the dot.
  lemma {:induction false} ReadOfEscape(bytes: CString, rest: CString)
    requires rest == [] || rest[0] == DOT
    ensures Read(Escape(bytes) + rest) == Label(bytes, if rest == [] then [] else rest[1..])
  {
    if bytes == [] {
      assert Escape(bytes) + rest == rest;
    } else {
      EscapeAhead(bytes, rest);
      hide EscapeByte, Escape, Head, Read;
      ReadOfEscapeByte(bytes[0], Escape(bytes[1..]) + rest);
      ReadOfEscape(bytes[1..], rest);
    }
  }

  lemma UnescapeOfEscape(bytes: CString, rest: CString, size: nat)
    requires rest == [] || rest[0] == DOT
    requires Utf8.IsUtf8(bytes) && |bytes| < size
    ensures Unescape(Escape(bytes) + rest, size) == Label(bytes, if rest == [] then [] else rest[1..])
  {
    ReadOfEscape(bytes, rest);
    Utf8.ValidIsUtf8(bytes);
  }

  // ---------------------------------------------------------------- the routines

  lemma PrefixedStep(bytes: CString, c: octet, r: Reading)
    ensures Prefixed(bytes, Prefixed([c], r)) == Prefixed(bytes + [c], r)
  {
    if r.Label? {
      assert bytes + ([c] + r.bytes) == bytes + [c] + r.bytes;
    }
  }

  // One turn of the reading loop: the character at a position, unescaped.
  method ReadByte(name: CString, at: nat) returns (k: Token)
    requires at <= |name|
    ensures k == Head(name[at..])
  {
    if Char(name, at) == DOT {
      return End(1);
    }
    if Char(name, at) == 0 {
      return End(0);
    }
    if Char(name, at) != BACKSLASH {
      return Literal(Char(name, at), 1);
    }
    if Char(name, at + 1) == 0 {
      return Malformed;
    }
    if Char(name, at + 1) == BACKSLASH || Char(name, at + 1) == DOT {
      return Literal(Char(name, at + 1), 2);
    }
    if !IsDigit(Char(name, at + 1)) || !IsDigit(Char(name, at + 2)) || !IsDigit(Char(name, at + 3)) {
      return Malformed;
    }
    var n := Decimal(Char(name, at + 1), Char(name, at + 2), Char(name, at + 3));
    return if n > 255 || n == 0 then Malformed else Literal(n, 4);
  }

  // avahi_unescape_label: reads the label at a position of a name into a buffer and
  // moves past it.
  method UnescapeLabel(name: CString, at: nat, dest: array<byte>, size: nat) returns (ok: bool, next: nat)
    requires at <= |name| && 0 < size <= dest.Length
    modifies dest
    ensures ok <==> Unescape(name[at..], size).Label?
    ensures at <= next <= |name|
    ensures ok ==> name[next..] == Unescape(name[at..], size).rest
    ensures ok ==> Holds(dest[..], 0, Unescape(name[at..], size).bytes)
  {
    hide Head, Holds;
    next := at;
    var i := 0;
    ghost var whole := Read(name[at..]);
    while true
      invariant 0 <= i <= size && at <= next <= |name|
      invariant forall j :: 0 <= j < i ==> dest[j] != 0
      invariant whole == Prefixed(dest[..i], Read(name[next..]))
      decreases |name| - next
    {
      if i >= size {
        return false, next;
      }
      var k := ReadByte(name, next);
      if k.Malformed? {
        return false, next;
      }
      assert name[next + k.length..] == name[next..][k.length..];
      if k.End? {
        next := next + k.length;
        break;
      }
      PrefixedStep(dest[..i], k.value, Read(name[next + k.length..]));
      dest[i] := k.value;
      assert dest[..i + 1] == dest[..i] + [k.value];
      i := i + 1;
      next := next + k.length;
    }
    assert whole == Label(dest[..i], name[next..]) by {
      assert dest[..i] + [] == dest[..i];
    }
    dest[i] := 0;
    assert Holds(dest[..], 0, whole.bytes) by {
      HoldsAt(dest[..], i);
    }
    ok := Utf8.Utf8Valid(dest[..i]);
    Utf8.ValidIsUtf8(dest[..i]);
  }

  lemma HoldsAt(buffer: seq<byte>, end: nat)
    requires end < |buffer| && buffer[end] == 0
    ensures Holds(buffer, 0, buffer[..end])
  {
  }

  // A buffer after some text was written into the room at a position: nothing outside the
  // room has changed.
  ghost predicate Wrote(now: seq<byte>, was: seq<byte>, at: nat, room: nat, text: CString) {
    && |now| == |was| && |text| <= room && at + room <= |was|
    && now[..at] == was[..at]
    && now[at..at + |text|] == text
    && now[at + room..] == was[at + room..]
  }

  lemma WroteMore(now: seq<byte>, mid: seq<byte>, was: seq<byte>, at: nat, room: nat, text: CString, more: CString)
    requires Wrote(mid, was, at, room, text) && Wrote(now, mid, at + |text|, room - |text|, more)
    ensures Wrote(now, was, at, room, text + more)
  {
    var end := at + |text|;
    assert now[..at] == now[..end][..at] == was[..at];
    assert now[at..end] == now[..end][at..] == text;
    assert now[at..end + |more|] == now[at..end] + now[end..end + |more|];
  }

  // One turn of the writing loop: a byte, escaped, if there is room for it.
  method WriteByte(c: octet, dest: array<byte>, at: nat, size: nat) returns (ok: bool, taken: nat)
    requires 0 < size && at + size <= dest.Length
    modifies dest
    ensures ok <==> |EscapeByte(c)| < size
    ensures ok ==> Wrote(dest[..], old(dest[..]), at, size, EscapeByte(c))
    ensures ok ==> taken == |EscapeByte(c)|
    ensures !ok ==> dest[..] == old(dest[..])
  {
    if c == DOT || c == BACKSLASH {
      if size < 3 {
        return false, 0;
      }
      dest[at] := BACKSLASH;
      dest[at + 1] := c;
      return true, 2;
    } else if c == UNDERSCORE || c == HYPHEN || IsDigit(c) || IsLower(c) || IsUpper(c) {
      if size < 2 {
        return false, 0;
      }
      dest[at] := c;
      return true, 1;
    } else {
      if size < 5 {
        return false, 0;
      }
      dest[at] := BACKSLASH;
      dest[at + 1] := ZERO + c / 100;
      dest[at + 2] := ZERO + c / 10 % 10;
      dest[at + 3] := ZERO + c % 10;
      return true, 4;
    }
  }

  // avahi_escape_label: writes a label into what is left of a buffer. The cursor and the
  // room move even when the label does not fit, and then no terminator is written.
  method EscapeLabel(src: CString, dest: array<byte>, at: nat, size: nat) returns (ok: bool, end: nat, room: nat)
    requires 0 < size && at + size <= dest.Length
    modifies dest
    ensures ok <==> |Escape(src)| < size
    ensures end == at + |Fit(src, size)| && room == size - |Fit(src, size)|
    ensures Wrote(dest[..], old(dest[..]), at, size, Fit(src, size))
    ensures ok ==> dest[end] == 0
    ensures !ok && end == at ==> dest[..] == old(dest[..])
  {
    hide EscapeByte, Escape, Fit, Wrote;
    ghost var was := dest[..];
    ghost var text: CString := [];
    end, room := at, size;
    assert Wrote(dest[..], was, at, size, text) by {
      WroteNothing(was, at, size);
    }
    assert src[0..] == src;
    var i := 0;
    while i < |src|
      invariant 0 <= i <= |src|
      invariant 0 < room && end == at + |text| && room == size - |text|
      invariant Fit(src, size) == text + Fit(src[i..], room)
      invariant |Escape(src)| < size <==> |Escape(src[i..])| < room
      invariant Wrote(dest[..], was, at, size, text)
      invariant text == [] ==> dest[..] == was
    {
      ghost var mid, e := dest[..], EscapeByte(src[i]);
      FitStep(text, src, i, room);
      var taken;
      ok, taken := WriteByte(src[i], dest, end, room);
      if !ok {
        return;
      }
      WroteMore(dest[..], mid, was, at, size, text, e);
      end, room := end + taken, room - taken;
      text := text + e;
      i := i + 1;
    }
    FitEnd(text, src, room);
    WroteThenEnded(dest[..], was, at, size, text);
    dest[end] := 0;
    ok := true;
  }

  lemma FitStep(text: CString, src: CString, i: nat, room: nat)
    requires i < |src| && 0 < room
    ensures var e := EscapeByte(src[i]);
      if |e| < room then
        && text + Fit(src[i..], room) == (text + e) + Fit(src[i + 1..], room - |e|)
        && (|Escape(src[i..])| < room <==> |Escape(src[i + 1..])| < room - |e|)
      else
        text + Fit(src[i..], room) == text && |Escape(src[i..])| >= room
  {
    hide EscapeByte;
    assert src[i..][1..] == src[i + 1..];
  }

  lemma FitEnd(text: CString, src: CString, room: nat)
    requires 0 < room
    ensures text + Fit(src[|src|..], room) == text && |Escape(src[|src|..])| < room
  {
  }

  lemma WroteNothing(was: seq<byte>, at: nat, room: nat)
    requires at + room <= |was|
    ensures Wrote(was, was, at, room, [])
  {
  }

  lemma WroteThenEnded(now: seq<byte>, was: seq<byte>, at: nat, room: nat, text: CString)
    requires Wrote(now, was, at, room, text) && |text| < room
    ensures Wrote(now[at + |text| := 0], was, at, room, text)
  {
  }
}
