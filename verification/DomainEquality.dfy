/** Comparing and hashing domain names, and the predicates that say which texts are names. */
module DomainEquality {
  import opened CStrings
  import opened DomainLabels
  import opened DomainNames

  // ---------------------------------------------------------------- comparison

  function Fold(l: CString): (f: CString)
    ensures |f| == |l| && forall i :: 0 <= i < |l| ==> f[i] == Lower(l[i])
  {
    seq(|l|, i requires 0 <= i < |l| => Lower(l[i]) as octet)
  }

  // The same byte, or one letter in its two cases
  predicate SameLetter(c: byte, d: byte) {
    c == d || ('A' as int <= c <= 'Z' as int && d == c + 32) || ('A' as int <= d <= 'Z' as int && c == d + 32)
  }

  predicate SameLetters(x: CString, y: CString) {
    |x| == |y| && forall i :: 0 <= i < |x| ==> SameLetter(x[i], y[i])
  }

  // That is what comparing the lower cases decides.
  lemma FoldsAlike(x: CString, y: CString)
    ensures Fold(x) == Fold(y) <==> SameLetters(x, y)
  {
    if SameLetters(x, y) {
      forall i | 0 <= i < |x| ensures Fold(x)[i] == Fold(y)[i] {
        assert SameLetter(x[i], y[i]);
      }
    }
    if Fold(x) == Fold(y) {
      assert |x| == |Fold(x)| == |y|;
      forall i | 0 <= i < |x| ensures SameLetter(x[i], y[i]) {
        assert Lower(x[i]) == Fold(x)[i] == Fold(y)[i] == Lower(y[i]);
      }
    }
  }

  function First(ls: seq<CString>): CString {
    if ls == [] then [] else ls[0]
  }

  function Others(ls: seq<CString>): seq<CString> {
    if ls == [] then [] else ls[1..]
  }

  // Label by label, case aside; a sequence that has ended goes on with empty labels.
  predicate Same(x: seq<CString>, y: seq<CString>)
    decreases |x| + |y|
  {
    (x == [] && y == []) || (SameLetters(First(x), First(y)) && Same(Others(x), Others(y)))
  }

  predicate AllNonEmpty(ls: seq<CString>) {
    forall i :: 0 <= i < |ls| ==> ls[i] != []
  }

  // Where no label is empty, that is as many labels, each the same but for case.
  lemma {:induction false} SameLabels(x: seq<CString>, y: seq<CString>)
    requires AllNonEmpty(x) && AllNonEmpty(y)
    ensures Same(x, y) <==> |x| == |y| && forall i :: 0 <= i < |x| ==> SameLetters(x[i], y[i])
    decreases |x| + |y|
  {
    if x == [] || y == [] {
    } else {
      SameLabels(x[1..], y[1..]);
      if |x| == |y| && forall i :: 0 <= i < |x| ==> SameLetters(x[i], y[i]) {
        assert forall i :: 0 <= i < |x| - 1 ==> x[1..][i] == x[i + 1] && y[1..][i] == y[i + 1];
      }
      if Same(x, y) {
        assert forall i :: 0 < i < |x| ==> x[i] == x[1..][i - 1] && y[i] == y[1..][i - 1];
      }
    }
  }

  // Two names are the same name.
  predicate SameName(a: CString, b: CString)
    requires NameOf(a).Labels? && NameOf(b).Labels?
  {
    var x, y := NameOf(a).list, NameOf(b).list;
    |x| == |y| && forall i :: 0 <= i < |x| ==> SameLetters(x[i], y[i])
  }

  // On names, the comparison of raw labels decides that.
  lemma SameNames(a: CString, b: CString)
    requires NameOf(a).Labels? && NameOf(b).Labels?
    ensures Raw(a).Labels? && Raw(b).Labels?
    ensures Same(Raw(a).list, Raw(b).list) <==> SameName(a, b)
  {
    RawOfName(a);
    RawOfName(b);
    hide Raw, NameOf;
    var x, y := NameOf(a).list, NameOf(b).list;
    SameLabels(x, y);
    RootIsEmpty(x, y);
    RootIsEmpty(y, x);
    SameIsSymmetric(x, y);
    SameIsSymmetric([[]], y);
  }

  lemma RawOfName(t: CString)
    requires NameOf(t).Labels?
    ensures Raw(t) == NameOf(t) || (Raw(t) == Labels([[]]) && NameOf(t) == Labels([]))
    ensures AllNonEmpty(NameOf(t).list)
  {
    if t == [DOT] {
      assert Read(t) == Label([], []);
    }
  }

  lemma RootIsEmpty(x: seq<CString>, y: seq<CString>)
    requires AllNonEmpty(x)
    ensures Same([[]], y) <==> Same([], y)
    ensures Same(x, [[]]) <==> Same(x, [])
  {
    assert Others([[]]) == [] && Others(y[..0]) == [];
  }

  lemma {:induction false} SameIsSymmetric(x: seq<CString>, y: seq<CString>)
    ensures Same(x, y) <==> Same(y, x)
    decreases |x| + |y|
  {
    if x != [] || y != [] {
      SameIsSymmetric(Others(x), Others(y));
    }
  }

  // The labels of a text as the comparison meets them: behind the last come empty ones, or
  // the first that cannot be read.
  datatype Met = Bad | Good(bytes: CString)

  function LabelAt(t: CString, k: nat): Met {
    if k < |Legible(t)| then Good(Legible(t)[k]) else if Raw(t).Labels? then Good([]) else Bad
  }

  predicate Agree(x: Met, y: Met) {
    x.Good? && y.Good? && SameLetters(x.bytes, y.bytes)
  }

  // The first place at which two texts do not agree.
  ghost predicate PartsAt(a: CString, b: CString, k: nat) {
    (forall i: nat :: i < k ==> Agree(LabelAt(a, i), LabelAt(b, i))) && !Agree(LabelAt(a, k), LabelAt(b, k))
  }

  // How a comparison ends, a label that cannot be read tripping an assertion. What stands
  // behind the first difference does not matter.
  datatype Comparison = Equal | Different | Tripped

  ghost function Compared(a: CString, b: CString): Comparison {
    if k: nat :| PartsAt(a, b, k) then
      if LabelAt(a, k).Good? && LabelAt(b, k).Good? then Different else Tripped
    else Equal
  }

  lemma ComparedAt(a: CString, b: CString, k: nat)
    requires PartsAt(a, b, k)
    ensures Compared(a, b) == if LabelAt(a, k).Good? && LabelAt(b, k).Good? then Different else Tripped
  {
    hide LabelAt, Agree;
    forall i: nat | PartsAt(a, b, i) ensures i == k {
      assert i < k ==> Agree(LabelAt(a, i), LabelAt(b, i));
      assert k < i ==> Agree(LabelAt(a, k), LabelAt(b, k));
    }
  }

  lemma ComparedNowhere(a: CString, b: CString)
    requires forall k: nat :: Agree(LabelAt(a, k), LabelAt(b, k))
    ensures Compared(a, b) == Equal
  {
    hide LabelAt, Agree;
  }

  // The label at the head of a text, and those behind it.
  lemma LabelAhead(t: CString)
    ensures var r := Unescape(t, LABEL_MAX);
      if r.Nothing? then LabelAt(t, 0) == Bad
      else LabelAt(t, 0) == Good(r.bytes) && forall k: nat :: LabelAt(t, k + 1) == LabelAt(r.rest, k)
    ensures t == [] ==> forall k: nat :: LabelAt(t, k) == Good([])
  {
    if t == [] {
      assert Read(t) == Label([], []);
    }
    hide Unescape;
  }

  lemma ComparedOnward(a: CString, b: CString)
    requires Unescape(a, LABEL_MAX).Label? && Unescape(b, LABEL_MAX).Label?
    requires Agree(LabelAt(a, 0), LabelAt(b, 0))
    ensures Compared(a, b) == Compared(Unescape(a, LABEL_MAX).rest, Unescape(b, LABEL_MAX).rest)
  {
    LabelAhead(a);
    LabelAhead(b);
    hide LabelAt, Agree, Unescape;
    var a', b' := Unescape(a, LABEL_MAX).rest, Unescape(b, LABEL_MAX).rest;
    if k: nat :| PartsAt(a', b', k) {
      forall i: nat | i < k + 1 ensures Agree(LabelAt(a, i), LabelAt(b, i)) {
        if i > 0 {
          assert LabelAt(a, i - 1 + 1) == LabelAt(a', i - 1) && LabelAt(b, i - 1 + 1) == LabelAt(b', i - 1);
        }
      }
      ComparedAt(a', b', k);
      ComparedAt(a, b, k + 1);
    } else {
      forall i: nat ensures Agree(LabelAt(a, i), LabelAt(b, i)) {
        Nowhere(a', b', i);
        if i > 0 {
          Nowhere(a', b', i - 1);
          assert LabelAt(a, i - 1 + 1) == LabelAt(a', i - 1) && LabelAt(b, i - 1 + 1) == LabelAt(b', i - 1);
        }
      }
      ComparedNowhere(a, b);
    }
  }

  lemma {:induction false} Nowhere(a: CString, b: CString, i: nat)
    requires forall k: nat :: !PartsAt(a, b, k)
    ensures forall j: nat :: j <= i ==> Agree(LabelAt(a, j), LabelAt(b, j))
  {
    hide LabelAt, Agree;
    if i > 0 {
      Nowhere(a, b, i - 1);
    }
    assert !PartsAt(a, b, i);
  }

  // One turn of the comparison.
  lemma ComparedStep(a: CString, b: CString)
    ensures var x, y := Unescape(a, LABEL_MAX), Unescape(b, LABEL_MAX);
      Compared(a, b) ==
        if x.Nothing? || y.Nothing? then Tripped
        else if !SameLetters(x.bytes, y.bytes) then Different
        else Compared(x.rest, y.rest)
  {
    var x, y := Unescape(a, LABEL_MAX), Unescape(b, LABEL_MAX);
    hide Unescape, LabelAt, Compared;
    LabelAhead(a);
    LabelAhead(b);
    if x.Nothing? || y.Nothing? || !SameLetters(x.bytes, y.bytes) {
      ComparedAt(a, b, 0);
    } else {
      ComparedOnward(a, b);
    }
  }

  lemma ComparedEnd()
    ensures Compared([], []) == Equal
  {
    hide LabelAt, Compared;
    LabelAhead([]);
    ComparedNowhere([], []);
  }

  // Texts that can be read are compared by their labels.
  lemma {:induction false} ComparedByLabels(a: CString, b: CString)
    requires Raw(a).Labels? && Raw(b).Labels?
    ensures Compared(a, b) == if Same(Raw(a).list, Raw(b).list) then Equal else Different
    decreases |a| + |b|
  {
    assert a == b == [] ==> Raw(a).list == Raw(b).list == [];
    hide *;
    ComparedStep(a, b);
    RawStep(a);
    RawStep(b);
    SameStep(Raw(a).list, Raw(b).list);
    if a == [] && b == [] {
      ComparedEnd();
      SameEnd();
    } else if SameLetters(Unescape(a, LABEL_MAX).bytes, Unescape(b, LABEL_MAX).bytes) {
      RestIsNoLonger(a);
      RestIsNoLonger(b);
      ComparedByLabels(Unescape(a, LABEL_MAX).rest, Unescape(b, LABEL_MAX).rest);
    }
  }

  lemma ComparedNames(a: CString, b: CString)
    ensures Raw(a).Labels? && Raw(b).Labels? ==>
      Compared(a, b) == (if Same(Raw(a).list, Raw(b).list) then Equal else Different)
    ensures NameOf(a).Labels? && NameOf(b).Labels? ==>
      Raw(a).Labels? && Raw(b).Labels? && (SameName(a, b) <==> Same(Raw(a).list, Raw(b).list))
    ensures a == b && Raw(a).Labels? ==> Compared(a, b) == Equal
  {
    if NameOf(a).Labels? && NameOf(b).Labels? {
      SameNames(a, b);
    }
    if Raw(a).Labels? && Raw(b).Labels? {
      ComparedByLabels(a, b);
      if a == b {
        SameIsReflexive(Raw(a).list);
      }
    }
  }

  // avahi_domain_equal
  method DomainEqual(a: CString, b: CString, samePointer: bool) returns (r: Comparison)
    requires samePointer ==> a == b
    ensures r == if samePointer then Equal else Compared(a, b)
    ensures NameOf(a).Labels? && NameOf(b).Labels? ==> r == (if SameName(a, b) then Equal else Different)
  {
    hide *;
    ComparedNames(a, b);
    if samePointer {
      return Equal;
    }
    assert a[0..] == a && b[0..] == b;
    var i, j := 0, 0;
    while true
      invariant 0 <= i <= |a| && 0 <= j <= |b|
      invariant Compared(a, b) == Compared(a[i..], b[j..])
      invariant i + j == 0 || i < |a| || j < |b|
      decreases |a| - i + |b| - j
    {
      ComparedStep(a[i..], b[j..]);
      var okA, ca, nextA := NextLabel(a, i);
      if !okA {
        return Tripped;
      }
      var okB, cb, nextB := NextLabel(b, j);
      if !okB {
        return Tripped;
      }
      FoldsAlike(ca, cb);
      if Fold(ca) != Fold(cb) {
        return Different;
      }
      RestIsNoLonger(a[i..]);
      RestIsNoLonger(b[j..]);
      i, j := nextA, nextB;
      if i == |a| && j == |b| {
        assert a[i..] == [] && b[j..] == [];
        ComparedEnd();
        return Equal;
      }
    }
  }

  lemma RestIsNoLonger(t: CString)
    requires Unescape(t, LABEL_MAX).Label?
    ensures |Unescape(t, LABEL_MAX).rest| <= |t| && (t != [] ==> |Unescape(t, LABEL_MAX).rest| < |t|)
  {
  }

  lemma SameIsReflexive(x: seq<CString>)
    ensures Same(x, x)
  {
  }

  lemma SameEnd()
    ensures Same([], [])
  {
  }

  lemma SameStep(x: seq<CString>, y: seq<CString>)
    ensures Same(x, y) <==> SameLetters(First(x), First(y)) && Same(Others(x), Others(y))
  {
  }

  // Reading a label off a text, the end included.
  lemma RawStep(t: CString)
    requires Raw(t).Labels?
    ensures Unescape(t, LABEL_MAX).Label?
    ensures var r := Unescape(t, LABEL_MAX);
      r.bytes == First(Raw(t).list) && Raw(r.rest) == Labels(Others(Raw(t).list)) && (t != [] ==> |r.rest| < |t|)
  {
    if t == [] {
      assert Read(t) == Label([], []);
    }
  }

  // ---------------------------------------------------------------- hashing

  // The value of a char as the C type holds it, from its byte.
  function Signed(c: byte): int {
    if c < 128 then c else c - 256
  }

  function HashBytes(hash: int, l: CString): int
    decreases |l|
  {
    if l == [] then hash else HashBytes((31 * hash + Signed(Lower(l[0]))) % 0x1_0000_0000, l[1..])
  }

  function HashLabels(hash: int, ls: seq<CString>): int
    decreases |ls|
  {
    if ls == [] then hash else HashLabels(HashBytes(hash, ls[0]), ls[1..])
  }

  lemma {:induction false} HashFolds(hash: int, x: CString, y: CString)
    requires Fold(x) == Fold(y)
    ensures HashBytes(hash, x) == HashBytes(hash, y)
    decreases |x|
  {
    assert |x| == |Fold(x)| == |y|;
    if x != [] {
      assert Lower(x[0]) == Fold(x)[0] == Lower(y[0]);
      assert Fold(x[1..]) == Fold(x)[1..] == Fold(y[1..]);
      HashFolds((31 * hash + Signed(Lower(x[0]))) % 0x1_0000_0000, x[1..], y[1..]);
    }
  }

  // Equal names have equal hashes.
  lemma {:induction false} EqualNamesHashAlike(hash: int, x: seq<CString>, y: seq<CString>)
    requires Same(x, y)
    ensures HashLabels(hash, x) == HashLabels(hash, y)
    decreases |x| + |y|
  {
    if x != [] || y != [] {
      FoldsAlike(First(x), First(y));
      HashFolds(hash, First(x), First(y));
      EqualNamesHashAlike(HashBytes(hash, First(x)), Others(x), Others(y));
    }
  }

  // The bytes of all labels as digits of a number to the base 31, upper case counting as lower
  function Weighed(l: CString): int {
    if l == [] then 0
    else
      var c := l[|l| - 1];
      31 * Weighed(l[..|l| - 1]) +
      (if 'A' as int <= c <= 'Z' as int then c + 32 else if c >= 128 then c - 256 else c)
  }

  function Flat(ls: seq<CString>): CString {
    if ls == [] then [] else ls[0] + Flat(ls[1..])
  }

  lemma ModStep(w: int, c: int)
    ensures (31 * (w % 0x1_0000_0000) + c) % 0x1_0000_0000 == (31 * w + c) % 0x1_0000_0000
  {
    var q := w / 0x1_0000_0000;
    assert 31 * w + c == 31 * (w % 0x1_0000_0000) + c + 31 * q * 0x1_0000_0000;
    ModOf(31 * (w % 0x1_0000_0000) + c, 31 * q);
  }

  lemma ModOf(a: int, q: int)
    ensures (a + q * 0x1_0000_0000) % 0x1_0000_0000 == a % 0x1_0000_0000
  {
  }

  lemma {:induction false} HashBytesIs(p: CString, l: CString)
    ensures HashBytes(Weighed(p) % 0x1_0000_0000, l) == Weighed(p + l) % 0x1_0000_0000
    decreases |l|
  {
    if l == [] {
      assert p + l == p;
    } else {
      var more := p + [l[0]];
      assert more[..|more| - 1] == p && more[|more| - 1] == l[0];
      assert Weighed(more) == 31 * Weighed(p) + Signed(Lower(l[0]));
      assert p + l == more + l[1..];
      hide Weighed, Signed, Lower;
      ModStep(Weighed(p), Signed(Lower(l[0])));
      HashBytesIs(more, l[1..]);
    }
  }

  // The hash is that number, in 32 bits.
  lemma {:induction false} HashIsWeighed(p: CString, ls: seq<CString>)
    ensures HashLabels(Weighed(p) % 0x1_0000_0000, ls) == Weighed(p + Flat(ls)) % 0x1_0000_0000
    decreases |ls|
  {
    if ls == [] {
      assert p + Flat(ls) == p;
    } else {
      hide Weighed, HashBytes;
      HashBytesIs(p, ls[0]);
      HashIsWeighed(p + ls[0], ls[1..]);
      Associative(p, ls[0], Flat(ls[1..]));
    }
  }

  // avahi_domain_hash, in 32 bits
  method DomainHash(s: CString) returns (hash: int)
    requires Raw(s).Labels?
    ensures 0 <= hash < 0x1_0000_0000
    ensures hash == HashLabels(0, Raw(s).list) == Weighed(Flat(Raw(s).list)) % 0x1_0000_0000
  {
    hide *;
    HashedNothing(Raw(s).list);
    HashIsWeighed([], Raw(s).list);
    hash := 0;
    var i := 0;
    assert s[0..] == s;
    while i < |s|
      invariant 0 <= i <= |s|
      invariant 0 <= hash < 0x1_0000_0000
      invariant Raw(s[i..]).Labels?
      invariant HashLabels(0, Raw(s).list) == HashLabels(hash, Raw(s[i..]).list)
      decreases |s| - i
    {
      HashLabel(hash, s[i..]);
      var ok, c, next := NextLabel(s, i);
      ghost var start := hash;
      var p := 0;
      assert c[0..] == c;
      while p < |c|
        invariant 0 <= p <= |c|
        invariant 0 <= hash < 0x1_0000_0000
        invariant HashBytes(start, c) == HashBytes(hash, c[p..])
      {
        HashByte(hash, c[p..]);
        assert c[p..][1..] == c[p + 1..];
        hash := (31 * hash + Signed(Lower(c[p]))) % 0x1_0000_0000;
        p := p + 1;
      }
      HashedAll(hash, c[p..]);
      i := next;
    }
    assert s[i..] == [];
    HashedEnd(hash);
  }

  lemma HashedNothing(ls: seq<CString>)
    ensures Weighed([]) % 0x1_0000_0000 == 0 && [] + Flat(ls) == Flat(ls)
  {
  }

  lemma HashLabel(hash: int, t: CString)
    requires Raw(t).Labels? && t != []
    ensures var r := Unescape(t, LABEL_MAX);
      && r.Label? && Raw(r.rest).Labels? && |r.rest| < |t|
      && HashLabels(hash, Raw(t).list) == HashLabels(HashBytes(hash, r.bytes), Raw(r.rest).list)
  {
    hide HashBytes;
    RawStep(t);
  }

  lemma HashByte(hash: int, l: CString)
    requires l != []
    ensures HashBytes(hash, l) == HashBytes((31 * hash + Signed(Lower(l[0]))) % 0x1_0000_0000, l[1..])
  {
  }

  lemma HashedAll(hash: int, l: CString)
    requires l == []
    ensures HashBytes(hash, l) == hash
  {
  }

  lemma HashedEnd(hash: int)
    ensures Raw([]).Labels? && HashLabels(hash, Raw([]).list) == hash
  {
  }

  // ---------------------------------------------------------------- validity

  // A domain name: its labels can be read, none is empty, and the text is not too long.
  predicate IsDomainName(t: CString) {
    |t| < DOMAIN_NAME_MAX && NameOf(t).Labels?
  }

  predicate IsTypeLabel(l: CString) {
    |l| > 2 && l[0] == UNDERSCORE
  }

  predicate AllTypeLabels(ls: seq<CString>) {
    forall i :: 0 <= i < |ls| ==> IsTypeLabel(ls[i])
  }

  // A service type: at least one label, each an underscore and two bytes or more.
  predicate IsServiceType(t: CString) {
    |t| < DOMAIN_NAME_MAX && t != [] && TypesAhead(t)
  }

  predicate TypesAhead(t: CString) {
    LabelsOf(t).Labels? && AllTypeLabels(LabelsOf(t).list)
  }

  predicate IsServiceName(t: CString) {
    0 < |t| < LABEL_MAX
  }

  // avahi_is_valid_service_type_generic
  method ValidServiceType(t: CString) returns (ok: bool)
    ensures ok <==> IsServiceType(t)
  {
    if |t| >= DOMAIN_NAME_MAX || t == [] {
      return false;
    }
    var i := 0;
    assert t[0..] == t;
    hide TypesAhead, Unescape;
    while i < |t|
      invariant 0 <= i <= |t|
      invariant TypesAhead(t) <==> TypesAhead(t[i..])
      decreases |t| - i
    {
      TypesStep(t[i..]);
      var ok', l, next := NextLabel(t, i);
      if !ok' {
        return false;
      }
      if |l| <= 2 || l[0] != UNDERSCORE {
        return false;
      }
      i := next;
    }
    NoTypesAhead();
    return true;
  }

  lemma TypesStep(t: CString)
    requires t != []
    ensures var r := Unescape(t, LABEL_MAX);
      TypesAhead(t) <==> r.Label? && IsTypeLabel(r.bytes) && TypesAhead(r.rest)
  {
    var r := Unescape(t, LABEL_MAX);
    if r.Label? && LabelsOf(t).Labels? {
      var ls := LabelsOf(t).list;
      assert ls[0] == r.bytes && ls[1..] == LabelsOf(r.rest).list;
      assert forall k :: 0 < k < |ls| ==> ls[k] == ls[1..][k - 1];
    }
  }

  lemma NoTypesAhead()
    ensures TypesAhead([])
  {
  }

  // avahi_is_valid_domain_name
  method ValidDomainName(t: CString) returns (ok: bool)
    ensures ok <==> IsDomainName(t)
  {
    if |t| >= DOMAIN_NAME_MAX {
      return false;
    }
    var isFirst, i := true, 0;
    assert t[0..] == t;
    while isFirst || i < |t|
      invariant 0 <= i <= |t|
      invariant isFirst ==> i == 0
      invariant !isFirst ==> (NameOf(t).Labels? <==> LabelsOf(t[i..]).Labels?)
      decreases |t| - i, isFirst
    {
      ghost var rest := t[i..];
      RawEmpty();
      var ok', l, next := NextLabel(t, i);
      if !ok' {
        return false;
      }
      if isFirst && l == [] && next == |t| {
        assert t == [] || t == [DOT];
        return true;
      }
      isFirst := false;
      if l == [] {
        return false;
      }
      i := next;
    }
    return true;
  }

  lemma RawEmpty()
    ensures Unescape([], LABEL_MAX) == Label([], [])
    ensures Unescape([DOT], LABEL_MAX) == Label([], [])
  {
    assert Read([]) == Label([], []);
    assert Read([DOT]) == Label([], []);
  }
}
