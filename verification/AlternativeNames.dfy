/** Renaming a service after a name collision: "x", "x #2", "x #3" and so on. */
module AlternativeNames {
  import opened CStrings
  import opened DomainNames
  import opened DomainEquality
  import Utf8

  const SPACE: octet := ' ' as int
  const HASH: octet := '#' as int
  const INT_MAX: int := 0x7FFF_FFFF

  // ---------------------------------------------------------------- numbers

  predicate AllDigits(t: CString) {
    forall i :: 0 <= i < |t| ==> IsDigit(t[i])
  }

  function Value(t: CString): (n: nat)
    requires AllDigits(t)
    ensures IsNumber(t) ==> n > 0
    decreases |t|
  {
    if t == [] then 0 else Value(t[..|t| - 1]) * 10 + (t[|t| - 1] - ZERO)
  }

  // %i of a number that is not negative
  function Digits(n: nat): (t: CString)
    ensures t != []
  {
    if n < 10 then [ZERO + n] else Digits(n / 10) + [ZERO + n % 10]
  }

  function Ten(k: nat): nat {
    if k == 0 then 1 else 10 * Ten(k - 1)
  }

  predicate IsNumber(t: CString) {
    t != [] && t[0] != ZERO && AllDigits(t)
  }

  lemma {:induction false} DigitsOfNumber(n: nat, k: nat)
    requires 0 < n < Ten(k)
    ensures IsNumber(Digits(n)) && Value(Digits(n)) == n && |Digits(n)| <= k
    decreases n
  {
    if n < 10 {
      assert Digits(n)[..0] == [];
      assert k > 0;
    } else {
      DigitsOfNumber(n / 10, k - 1);
      var t := Digits(n);
      assert t[..|t| - 1] == Digits(n / 10);
    }
  }

  // ---------------------------------------------------------------- the suffix

  // Where the last " #" starts, or -1
  function LastMark(s: CString): (i: int)
    ensures i == -1 || (0 <= i && i + 2 <= |s| && s[i] == SPACE && s[i + 1] == HASH)
    decreases |s|
  {
    if |s| < 2 then -1
    else if s[|s| - 2] == SPACE && s[|s| - 1] == HASH then |s| - 2
    else LastMark(s[..|s| - 1])
  }

  predicate IsNumbered(s: CString) {
    LastMark(s) >= 0 && IsNumber(s[LastMark(s) + 2..])
  }

  // A name without a number counts as the first of its kind.
  function Suffix(s: CString): (n: nat)
    ensures n > 0
  {
    if IsNumbered(s) then Value(s[LastMark(s) + 2..]) else 1
  }

  function StemLength(s: CString): (l: nat)
    ensures l <= |s|
  {
    if IsNumbered(s) then LastMark(s) else |s|
  }

  lemma {:induction false} MarkBeforeNumber(c: CString, m: CString)
    requires AllDigits(m)
    ensures LastMark(c + [SPACE, HASH] + m) == |c|
    decreases |m|
  {
    var s := c + [SPACE, HASH] + m;
    if m == [] {
      assert s == c + [SPACE, HASH];
    } else {
      assert s[|s| - 1] == m[|m| - 1];
      assert s[..|s| - 1] == c + [SPACE, HASH] + m[..|m| - 1];
      MarkBeforeNumber(c, m[..|m| - 1]);
    }
  }

  lemma {:induction false} BelowTen(n: nat)
    ensures n < Ten(n)
  {
    if n > 0 {
      BelowTen(n - 1);
    }
  }

  lemma {:induction false} NumberOfDigits(t: CString)
    requires IsNumber(t)
    ensures Digits(Value(t)) == t
    decreases |t|
  {
    var front, last := t[..|t| - 1], t[|t| - 1] - ZERO;
    if front == [] {
      assert Value(t) == last;
      assert t == [t[0]];
    } else {
      NumberOfDigits(front);
      assert Value(t) == Value(front) * 10 + last && Value(front) > 0;
      assert t == front + [t[|t| - 1]];
    }
  }

  predicate EndsIn(s: CString, c: CString, n: nat) {
    n > 0 && s == c + [' ' as int, '#' as int] + Digits(n)
  }

  lemma EndsInNumber(s: CString, c: CString, n: nat)
    requires EndsIn(s, c, n)
    ensures IsNumbered(s) && Suffix(s) == n && StemLength(s) == |c|
  {
    BelowTen(n);
    DigitsOfNumber(n, n);
    assert [SPACE, HASH] == [' ' as int, '#' as int];
    hide Digits, Ten;
    MarkBeforeNumber(c, Digits(n));
    assert s[|c| + 2..] == Digits(n);
  }

  // A name is numbered exactly if it ends in a mark and a positive number as it is printed;
  // the number and what stands before the mark are those.
  lemma NumberedIff(s: CString)
    ensures IsNumbered(s) <==> exists c: CString, n: nat :: EndsIn(s, c, n)
    ensures forall c: CString, n: nat :: EndsIn(s, c, n) ==> Suffix(s) == n && StemLength(s) == |c|
    ensures !IsNumbered(s) ==> Suffix(s) == 1 && StemLength(s) == |s|
  {
    if IsNumbered(s) {
      var i := LastMark(s);
      var n := Value(s[i + 2..]);
      NumberOfDigits(s[i + 2..]);
      assert s == s[..i] + [' ' as int, '#' as int] + s[i + 2..];
      hide Digits, Value;
      assert EndsIn(s, s[..i], n);
    }
    hide IsNumbered, LastMark, EndsIn;
    forall c: CString, n: nat | EndsIn(s, c, n) ensures IsNumbered(s) && Suffix(s) == n && StemLength(s) == |c| {
      EndsInNumber(s, c, n);
    }
  }

  // The digits are decimal.
  lemma DigitsAreDecimal()
    ensures Digits(90210) == ['9' as int, '0' as int, '2' as int, '1' as int, '0' as int]
  {
    assert Digits(902) == ['9' as int, '0' as int, '2' as int];
  }

  lemma NumberedName(c: CString, n: nat)
    requires 0 < n <= INT_MAX
    ensures var s := c + [SPACE, HASH] + Digits(n);
      IsNumbered(s) && Suffix(s) == n && StemLength(s) == |c|
    ensures |Digits(n)| <= 10
  {
    assert Ten(10) == 10_000_000_000 by {
      assert Ten(5) == 100_000;
    }
    DigitsOfNumber(n, 10);
    MarkBeforeNumber(c, Digits(n));
    var s := c + [SPACE, HASH] + Digits(n);
    assert s[|c| + 2..] == Digits(n);
  }

  // ---------------------------------------------------------------- truncation

  datatype Dropping = Asserts | Kept(text: CString)

  // Bytes go from the end until the rest is UTF-8; a plain ASCII byte may not go.
  function Drop(c: CString): Dropping
    decreases |c|
  {
    if Utf8.Valid(c) then Kept(c)
    else if c[|c| - 1] < 128 then Asserts
    else Drop(c[..|c| - 1])
  }

  // A character that is cut in two has no ASCII byte.
  lemma {:induction false} CutCharacter(s: CString, l: nat) returns (k: nat)
    requires Utf8.Valid(s) && l <= |s|
    ensures k <= l && Utf8.Valid(s[..k])
    ensures forall i :: k <= i < l ==> s[i] >= 128
    decreases |s|
  {
    hide *;
    Utf8.ValidNothing();
    if s == [] {
      k := 0;
    } else {
      Utf8.ValidHead(s);
      var cp := Utf8.First(s);
      var n := |Utf8.Encode(cp)|;
      assert Utf8.Encode(cp) == s[..n];
      if l < n {
        k := 0;
        ContinuationsAreHigh(cp);
        assert forall i :: 0 <= i < l ==> s[i] == Utf8.Encode(cp)[i];
      } else {
        var more := CutCharacter(s[n..], l - n);
        k := n + more;
        Utf8.FirstIsEncoded(s[..k], cp);
        Utf8.ValidBehind(s[..k]);
        assert s[..k][n..] == s[n..][..more];
        assert forall i :: k <= i < l ==> s[i] == s[n..][i - n];
      }
    }
  }

  lemma ContinuationsAreHigh(cp: int)
    requires Utf8.Good(cp)
    ensures |Utf8.Encode(cp)| > 1 ==> forall i :: 0 <= i < |Utf8.Encode(cp)| ==> Utf8.Encode(cp)[i] >= 128
  {
  }

  // Of the first l bytes of a text, the first k are the longest start that is UTF-8.
  ghost predicate Longest(s: CString, l: int, k: nat) {
    k <= l <= |s| && Utf8.IsUtf8(s[..k]) && forall j :: k < j <= l ==> !Utf8.IsUtf8(s[..j])
  }

  // There is always a longest start.
  lemma {:induction false} LongestStart(s: CString, l: nat) returns (k: nat)
    requires l <= |s|
    ensures Longest(s, l, k)
  {
    hide Utf8.IsUtf8;
    if Utf8.IsUtf8(s[..l]) {
      k := l;
    } else {
      EmptyIsUtf8(s);
      k := LongestStart(s, l - 1);
    }
  }

  lemma EmptyIsUtf8(s: CString)
    ensures s[..0] == [] && Utf8.IsUtf8(s[..0])
  {
    Utf8.ValidIsUtf8([]);
  }

  // Of any bytes the longest valid start is kept, exactly if no ASCII byte lies behind it;
  // otherwise the assertion fails.
  lemma {:induction false} DropIsExact(s: CString, l: nat, k: nat)
    requires Longest(s, l, k)
    ensures Drop(s[..l]) == if exists i :: k <= i < l && s[i] < 128 then Asserts else Kept(s[..k])
    decreases l
  {
    hide Drop, Utf8.Valid, Utf8.IsUtf8;
    var c := s[..l];
    Utf8.ValidIsUtf8(c);
    DropStep(c);
    if !Utf8.Valid(c) {
      EmptyIsUtf8(s);
      assert k < l;
      assert c[..l - 1] == s[..l - 1] && c[l - 1] == s[l - 1];
      DropIsExact(s, l - 1, k);
    } else {
      assert k == l;
    }
  }

  lemma DropStep(c: CString)
    ensures Utf8.Valid(c) || c == [] ==> Drop(c) == Kept(c)
    ensures !Utf8.Valid(c) && c != [] ==>
      Drop(c) == if c[|c| - 1] < 128 then Asserts else Drop(c[..|c| - 1])
  {
  }

  // On a prefix of UTF-8 text the assertion holds and the longest valid start is kept.
  lemma DropOfPrefix(s: CString, l: nat)
    requires Utf8.Valid(s) && l <= |s|
    ensures Drop(s[..l]).Kept?
    ensures var c := Drop(s[..l]).text; Longest(s, l, |c|) && c == s[..|c|]
  {
    hide Drop, Utf8.Valid, Utf8.IsUtf8;
    var k := CutCharacter(s, l);
    Utf8.ValidIsUtf8(s[..k]);
    var m := LongestStart(s, l);
    assert k <= m;
    DropIsExact(s, l, m);
  }

  // ---------------------------------------------------------------- renaming

  // No result, an int that overflows, a failed assertion, or the next name
  datatype Renaming = Unusable | Overflows | Stops | Renamed(name: CString)

  function Min(a: int, b: int): int {
    if a < b then a else b
  }

  function Alternative(s: CString): Renaming {
    if !IsServiceName(s) then Unusable
    else if Suffix(s) >= INT_MAX then Overflows
    else
      NumberedName([], Suffix(s) + 1);
      var m := Digits(Suffix(s) + 1);
      match Drop(s[..Min(StemLength(s), LABEL_MAX - 1 - |m| - 2)])
      case Asserts => Stops
      case Kept(c) => Renamed(c + [SPACE, HASH] + m)
  }

  ghost predicate Follows(s: CString, r: CString) {
    && IsServiceName(r) && Utf8.IsUtf8(r)
    && Suffix(r) == Suffix(s) + 1
    && Longest(s, Min(StemLength(s), LABEL_MAX - 3 - |Digits(Suffix(r))|), StemLength(r))
    && r[..StemLength(r)] == s[..StemLength(r)]
  }

  // The next name is a valid name again, its number is one higher, and of the old one it
  // keeps the longest UTF-8 start that leaves room for the number.
  lemma AlternativeIsNext(s: CString)
    requires IsServiceName(s) && Utf8.IsUtf8(s) && Suffix(s) < INT_MAX
    ensures Alternative(s).Renamed? && Follows(s, Alternative(s).name)
  {
    var n := Suffix(s) + 1;
    NumberedName([], n);
    var l := Min(StemLength(s), LABEL_MAX - 3 - |Digits(n)|);
    Utf8.ValidIsUtf8(s);
    hide Utf8.Valid, Utf8.IsUtf8, Digits, StemLength, Suffix, Drop, Longest, IsServiceName, Follows;
    DropOfPrefix(s, l);
    NumberedFollows(s, Drop(s[..l]).text, n);
  }

  // Any other name trips the assertion exactly if, in front of the number, an ASCII byte
  // lies behind the longest start that is UTF-8.
  lemma AlternativeStops(s: CString, k: nat)
    requires IsServiceName(s) && Suffix(s) < INT_MAX
    requires Longest(s, Min(StemLength(s), LABEL_MAX - 3 - |Digits(Suffix(s) + 1)|), k)
    ensures Alternative(s) == Stops <==>
      exists i :: k <= i < Min(StemLength(s), LABEL_MAX - 3 - |Digits(Suffix(s) + 1)|) && s[i] < 128
  {
    var l := Min(StemLength(s), LABEL_MAX - 3 - |Digits(Suffix(s) + 1)|);
    hide Utf8.IsUtf8, Digits, StemLength, Suffix, Drop, Longest, IsServiceName;
    NumberedName([], Suffix(s) + 1);
    DropIsExact(s, l, k);
  }

  // One byte that is no UTF-8, and a letter
  lemma RenamingTripsAssertion()
    ensures Alternative([255, 97]) == Stops
  {
    var s: CString := [255, 97];
    assert !Utf8.Valid(s) by {
      assert Utf8.First(s) == 0;
    }
    assert Drop(s) == Asserts;
    assert !IsNumbered(s);
    assert s[..2] == s;
    hide Drop, Utf8.Valid;
    NumberedName([], 1);
  }

  lemma NumberedFollows(s: CString, c: CString, n: nat)
    requires Suffix(s) < INT_MAX && n == Suffix(s) + 1
    requires Longest(s, Min(StemLength(s), LABEL_MAX - 3 - |Digits(n)|), |c|) && c == s[..|c|]
    ensures Follows(s, c + [SPACE, HASH] + Digits(n))
  {
    hide Utf8.IsUtf8, Digits, StemLength, Suffix, IsNumbered;
    NumberedName(c, n);
    NumberedIsUtf8(c, n);
    assert (c + [SPACE, HASH] + Digits(n))[..|c|] == c;
  }

  lemma NumberedIsUtf8(c: CString, n: nat)
    requires Utf8.IsUtf8(c) && 0 < n <= INT_MAX
    ensures Utf8.IsUtf8(c + [SPACE, HASH] + Digits(n))
  {
    Utf8.ValidIsUtf8(c);
    var m := Digits(n);
    NumberedName([], n);
    assert AllDigits(m) by {
      assert ([] + [SPACE, HASH] + m)[2..] == m;
    }
    Utf8.AsciiIsValid([SPACE, HASH] + m);
    hide Utf8.Valid, Digits;
    Utf8.ValidConcat(c, [SPACE, HASH] + m);
    Associative(c, [SPACE, HASH], m);
    Utf8.ValidIsUtf8(c + [SPACE, HASH] + m);
  }

  // ---------------------------------------------------------------- runs

  function Iterate(s: CString, k: nat): Renaming {
    if k == 0 then Renamed(s)
    else if Iterate(s, k - 1).Renamed? then Alternative(Iterate(s, k - 1).name)
    else Iterate(s, k - 1)
  }

  // Renaming again and again counts up, as long as the number fits an int.
  lemma {:induction false} IteratesCount(s: CString, k: nat)
    requires IsServiceName(s) && Utf8.IsUtf8(s) && Suffix(s) + k <= INT_MAX
    ensures var r := Iterate(s, k);
      r.Renamed? && IsServiceName(r.name) && Utf8.IsUtf8(r.name) && Suffix(r.name) == Suffix(s) + k
  {
    hide Suffix, Alternative, IsServiceName, StemLength, Digits;
    if k != 0 {
      IteratesCount(s, k - 1);
      AlternativeIsNext(Iterate(s, k - 1).name);
    }
  }

  // So no name comes twice.
  lemma IteratesDiffer(s: CString, i: nat, j: nat)
    requires IsServiceName(s) && Utf8.IsUtf8(s) && i < j && Suffix(s) + j <= INT_MAX
    ensures Iterate(s, i) != Iterate(s, j)
  {
    IteratesCount(s, i);
    IteratesCount(s, j);
  }

  // After that the next number is no int any more.
  lemma IteratesEnd(s: CString)
    requires IsServiceName(s) && Utf8.IsUtf8(s)
    requires Suffix(s) <= INT_MAX
    ensures Iterate(s, INT_MAX - Suffix(s) + 1) == Overflows
  {
    var k := INT_MAX - Suffix(s);
    hide Suffix, IsServiceName, Utf8.IsUtf8, Drop, Digits;
    IteratesCount(s, k);
  }

  // ---------------------------------------------------------------- the routines

  // drop_incomplete_utf8, on a string in a buffer
  method DropIncompleteUtf8(c: array<byte>, length: nat, ghost text: CString) returns (ok: bool, kept: nat)
    requires length == |text| && Holds(c[..], 0, text)
    modifies c
    ensures ok <==> Drop(text).Kept?
    ensures ok ==> kept <= length && Drop(text).text == text[..kept] && Holds(c[..], 0, Drop(text).text)
  {
    kept := length;
    assert text[..kept] == text;
    while kept > 0
      invariant 0 <= kept <= length
      invariant Drop(text) == Drop(text[..kept])
      invariant Holds(c[..], 0, text[..kept])
    {
      assert c[..kept] == c[..][0..kept] == text[..kept];
      var valid := Utf8.Utf8Valid(c[..kept]);
      Utf8.ValidIsUtf8(text[..kept]);
      if valid {
        return true, kept;
      }
      if c[kept - 1] / 128 == 0 {
        return false, kept;
      }
      assert text[..kept][..kept - 1] == text[..kept - 1];
      assert c[kept - 1] == text[kept - 1];
      c[kept - 1] := 0;
      kept := kept - 1;
      assert c[..][0..kept] == text[..kept];
    }
    assert text[..0] == [];
    ok := true;
  }

  // strstr for " #", from a position on
  method Find(s: CString, from: nat) returns (at: int)
    requires from <= |s|
    ensures at == -1 || (from <= at && at + 2 <= |s| && s[at] == SPACE && s[at + 1] == HASH)
    ensures forall i :: from <= i && i + 2 <= |s| && (at == -1 || i < at) ==> !(s[i] == SPACE && s[i + 1] == HASH)
  {
    var i := from;
    while i + 2 <= |s|
      invariant from <= i
      invariant forall j :: from <= j < i && j + 2 <= |s| ==> !(s[j] == SPACE && s[j + 1] == HASH)
    {
      if s[i] == SPACE && s[i + 1] == HASH {
        return i;
      }
      i := i + 1;
    }
    return -1;
  }

  lemma {:induction false} LastMarkIs(s: CString, i: int)
    requires i == -1 || (0 <= i && i + 2 <= |s| && s[i] == SPACE && s[i + 1] == HASH)
    requires forall j :: i < j && j + 2 <= |s| ==> 0 <= j ==> !(s[j] == SPACE && s[j + 1] == HASH)
    ensures LastMark(s) == i
    decreases |s|
  {
    if |s| >= 2 && !(s[|s| - 2] == SPACE && s[|s| - 1] == HASH) {
      LastMarkIs(s[..|s| - 1], i);
    }
  }

  // Where the number of a name starts, if it has one
  method NumberStart(s: CString) returns (e: int)
    ensures if IsNumbered(s) then e == LastMark(s) + 2 else e == -1
  {
    e := Find(s, 0);
    if e < 0 {
      LastMarkIs(s, -1);
      return -1;
    }
    e := e + 2;
    var n := Find(s, e);
    while n >= 0
      invariant 2 <= e <= |s| && s[e - 2] == SPACE && s[e - 1] == HASH
      invariant n == -1 || (e <= n && n + 2 <= |s| && s[n] == SPACE && s[n + 1] == HASH)
      invariant forall i :: e <= i && i + 2 <= |s| && (n == -1 || i < n) ==> !(s[i] == SPACE && s[i + 1] == HASH)
      decreases |s| - e, n
    {
      e := n + 2;
      n := Find(s, e);
    }
    LastMarkIs(s, e - 2);
    var p := e;
    while p < |s| && IsDigit(s[p])
      invariant e <= p <= |s|
      invariant forall i :: e <= i < p ==> IsDigit(s[i])
    {
      p := p + 1;
    }
    if p < |s| || Char(s, e) == ZERO || Char(s, e) == 0 {
      e := -1;
    }
  }

  // avahi_alternative_service_name
  method AlternativeServiceName(s: CString) returns (r: Renaming)
    ensures r == Alternative(s)
  {
    hide LastMark, Digits, Drop, Holds, Value;
    if |s| >= LABEL_MAX || s == [] {
      return Unusable;
    }
    var e := NumberStart(s);
    var m: CString, l: nat := [ZERO + 2], |s|;
    TwoDigit();
    if e >= 0 {
      if Value(s[e..]) >= INT_MAX {
        return Overflows;
      }
      m, l := Digits(Value(s[e..]) + 1), e - 2;
    }
    assert m == Digits(Suffix(s) + 1) && l == StemLength(s);
    NumberedName([], Suffix(s) + 1);
    if l >= LABEL_MAX - 1 - |m| - 2 {
      l := LABEL_MAX - 1 - |m| - 2;
    }
    var c := DuplicatePrefix(s, l);
    var ok, kept := DropIncompleteUtf8(c, l, s[..l]);
    if !ok {
      return Stops;
    }
    var n := Length(c, s[..kept]);
    return Renamed(c[..n] + [SPACE, HASH] + m);
  }

  lemma TwoDigit()
    ensures Digits(2) == [ZERO + 2]
  {
  }

  // avahi_strndup of no more bytes than there are
  method DuplicatePrefix(s: CString, l: nat) returns (c: array<byte>)
    requires l <= |s|
    ensures fresh(c) && Holds(c[..], 0, s[..l])
  {
    c := new byte[l + 1];
    var i := 0;
    while i < l
      invariant 0 <= i <= l
      invariant c[..i] == s[..i]
    {
      c[i] := s[i];
      i := i + 1;
    }
    c[l] := 0;
    assert c[..][0..l] == s[..l];
  }
}
