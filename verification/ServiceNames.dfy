/**
 Service instance names: joining a name, a type and a domain into one text, section 4 of
 RFC 6763, and splitting that text again.
 */
module ServiceNames {
  import opened CStrings
  import opened DomainLabels
  import opened DomainNames
  import opened DomainEquality
  import Utf8

  datatype Option<T> = None | Some(value: T)

  // ---------------------------------------------------------------- joining

  function Front(name: Option<CString>): CString {
    if name.None? then [] else Escape(name.value) + [DOT]
  }

  function Concatenated(name: Option<CString>, kind: CString, domain: CString): CString {
    Front(name) + kind + [DOT] + domain
  }

  // What joining comes to: an error, a failed assertion, bytes without a terminator
  // handed to the formatting, or a text for the caller's buffer.
  datatype Joining = BadName | BadType | BadDomain | Stops | Runs | Text(text: CString)

  function Join(name: Option<CString>, kind: CString, domain: CString): Joining {
    if name.Some? && !IsServiceName(name.value) then BadName
    else if !IsServiceType(kind) then BadType
    else if !IsDomainName(domain) then BadDomain
    else
      var k, d := Normalize(kind, DOMAIN_NAME_MAX), Normalize(domain, DOMAIN_NAME_MAX);
      if k.Null? then BadType
      else if k.Stopped? then Stops
      else if d.Null? then BadDomain
      else if d.Stopped? then Stops
      else if !k.ended || !d.ended then Runs
      else Text(Concatenated(name, k.text, d.text))
  }

  function Types(kind: CString): seq<CString>
    requires IsServiceType(kind)
  {
    LabelsOf(kind).list
  }

  function Domain(domain: CString): seq<CString>
    requires IsDomainName(domain)
  {
    NameOf(domain).list
  }

  // Joining gives the normal forms, joined, exactly when both fit the inner buffers.
  lemma JoinIsExact(name: Option<CString>, kind: CString, domain: CString)
    requires name.Some? ==> IsServiceName(name.value)
    requires IsServiceType(kind) && IsDomainName(domain)
    ensures var k, d := Normal(Types(kind)), Normal(Domain(domain));
      Join(name, kind, domain) == Text(Concatenated(name, k, d)) <==> |k| < DOMAIN_NAME_MAX && |d| < DOMAIN_NAME_MAX
    ensures !Join(name, kind, domain).BadType? && !Join(name, kind, domain).BadDomain?
  {
    TypeIsName(kind);
    NormalizeIsExact(kind, DOMAIN_NAME_MAX);
    NormalizeIsExact(domain, DOMAIN_NAME_MAX);
    NormalizeShortens(kind, DOMAIN_NAME_MAX);
    NormalizeShortens(domain, DOMAIN_NAME_MAX);
    hide Normalize, Normal, IsServiceType, IsDomainName, IsServiceName, NameOf, LabelsOf, Concatenated;
    var k, d := Normalize(kind, DOMAIN_NAME_MAX), Normalize(domain, DOMAIN_NAME_MAX);
    if k.Left? && d.Left? {
      ConcatenatedLength(name, k.text, d.text);
      ConcatenatedLength(name, Normal(Types(kind)), Normal(Domain(domain)));
    }
  }

  // The first part that is not valid decides the error.
  lemma JoinRefuses(name: Option<CString>, kind: CString, domain: CString)
    ensures var j := Join(name, kind, domain);
      && (j.BadName? <==> name.Some? && !(0 < |name.value| < 64))
      && (j.BadType? <==> !j.BadName? && !IsServiceType(kind))
      && (j.BadDomain? <==> !j.BadName? && !j.BadType? && !IsDomainName(domain))
  {
    NotNull(kind, domain);
    hide IsServiceType, IsDomainName, Normalize, Concatenated;
  }

  lemma NotNull(kind: CString, domain: CString)
    ensures IsServiceType(kind) ==> !Normalize(kind, DOMAIN_NAME_MAX).Null?
    ensures IsDomainName(domain) ==> !Normalize(domain, DOMAIN_NAME_MAX).Null?
  {
    NormalizeIsExact(kind, DOMAIN_NAME_MAX);
    NormalizeIsExact(domain, DOMAIN_NAME_MAX);
    hide Normalize, Normal;
    if IsServiceType(kind) {
      TypeIsName(kind);
    }
  }

  // Labels written into an inner buffer: one that stops at a dot in the last byte, and one
  // whose last label is cut, so that its text has no terminator.
  ghost predicate Jammed(ls: seq<CString>) {
    Jams(DOMAIN_NAME_MAX, true, ls)
  }

  ghost predicate LastIsCut(ls: seq<CString>) {
    !LastFits(DOMAIN_NAME_MAX, true, ls)
  }

  lemma NormalizeInner(t: CString)
    requires NameOf(t).Labels?
    ensures var n, ls := Normalize(t, DOMAIN_NAME_MAX), NameOf(t).list;
      && !n.Null? && (n.Stopped? <==> Jammed(ls))
      && (n.Left? ==> (n.ended <==> !LastIsCut(ls)))
  {
    var ls := NameOf(t).list;
    LeadingOfText(t);
    NormalizeIsExact(t, DOMAIN_NAME_MAX);
    NormalizeFromStops(t, Sink([], DOMAIN_NAME_MAX, true), true);
    NormalizeEnds(t, DOMAIN_NAME_MAX);
    hide NormalizeFrom, NameOf, Leading, Jams, LastFits, RoomLeft;
    if Normalize(t, DOMAIN_NAME_MAX).Left? && Normalize(t, DOMAIN_NAME_MAX).text == [] {
      NothingWritten(ls);
    }
  }

  lemma LeadingOfText(t: CString)
    requires NameOf(t).Labels?
    ensures Leading(t) == NameOf(t).list
  {
    if t == [DOT] {
      assert Read(t) == Label([], []);
    } else {
      LeadingOfName(t);
    }
  }

  // Some byte of a first label always fits such a buffer.
  lemma NothingWritten(ls: seq<CString>)
    requires RoomLeft(DOMAIN_NAME_MAX, true, ls) == DOMAIN_NAME_MAX
    requires forall i :: 0 <= i < |ls| ==> ls[i] != []
    ensures ls == []
  {
    if ls != [] {
      var k := Sink([], DOMAIN_NAME_MAX, true);
      assert Dotted(k) == [];
      hide *;
      SomeByteFits(ls[0]);
      RoomStep(k, ls);
      RoomShrinks(DOMAIN_NAME_MAX - |Fit(ls[0], DOMAIN_NAME_MAX)|, false, ls[1..]);
    }
  }

  lemma SomeByteFits(l: CString)
    requires l != []
    ensures Fit(l, DOMAIN_NAME_MAX) != []
  {
    hide Escape, EscapeByte;
  }

  lemma {:induction false} RoomShrinks(room: nat, empty: bool, ls: seq<CString>)
    ensures RoomLeft(room, empty, ls) <= room
    decreases |ls|
  {
    hide Fit, Escape;
    var behind := if empty || room == 0 then room else room - 1;
    if ls != [] && behind != 0 {
      RoomShrinks(behind - |Fit(ls[0], behind)|, false, ls[1..]);
    }
  }

  // Valid parts end in one of three ways: the assertion, an overrun, or a text.
  lemma JoinEnds(name: Option<CString>, kind: CString, domain: CString)
    requires name.Some? ==> IsServiceName(name.value)
    requires IsServiceType(kind) && IsDomainName(domain)
    ensures var ts, ds, j := Types(kind), Domain(domain), Join(name, kind, domain);
      && (j.Stops? <==> Jammed(ts) || Jammed(ds))
      && (j.Runs? <==> !Jammed(ts) && !Jammed(ds) && (LastIsCut(ts) || LastIsCut(ds)))
      && (j.Text? <==> !Jammed(ts) && !Jammed(ds) && !LastIsCut(ts) && !LastIsCut(ds))
  {
    TypeIsName(kind);
    NormalizeInner(kind);
    NormalizeInner(domain);
    hide Normalize, IsServiceType, IsServiceName, NameOf, LabelsOf, Concatenated, Jammed, LastIsCut;
  }

  // Spaces take four bytes each in a normal form and one in a text.
  function Spaces(n: nat): (l: CString)
    ensures |l| == n
  {
    if n == 0 then [] else [32] + Spaces(n - 1)
  }

  function Copies(k: nat): (ls: seq<CString>)
    ensures |ls| == k
  {
    if k == 0 then [] else [Spaces(63)] + Copies(k - 1)
  }

  function Unescaped(ls: seq<CString>): CString {
    if ls == [] then [] else if |ls| == 1 then ls[0] else ls[0] + ([DOT] + Unescaped(ls[1..]))
  }

  lemma {:induction false} SpacesAre(n: nat)
    ensures |Escape(Spaces(n))| == 4 * n && forall i :: 0 <= i < n ==> Spaces(n)[i] == 32
  {
    if n > 0 {
      SpacesAre(n - 1);
      assert Spaces(n)[1..] == Spaces(n - 1);
    }
  }

  lemma UnescapeAscii(l: CString, rest: CString)
    requires |l| < LABEL_MAX && forall i :: 0 <= i < |l| ==> l[i] < 128 && l[i] != '.' as int && l[i] != '\\' as int
    requires rest == [] || rest[0] == DOT
    ensures Unescape(l + rest, LABEL_MAX) == Label(l, if rest == [] then [] else rest[1..])
  {
    hide *;
    Utf8.AsciiIsValid(l);
    Utf8.ValidIsUtf8(l);
    if rest == [] {
      PlainIsRead(l, [], LABEL_MAX);
      assert l + rest == l;
    } else {
      PlainIsRead(l, rest[1..], LABEL_MAX);
      assert [DOT] + rest[1..] == rest;
    }
  }

  lemma UnescapeSpaces(rest: CString)
    requires rest == [] || rest[0] == DOT
    ensures Unescape(Spaces(63) + rest, LABEL_MAX) == Label(Spaces(63), if rest == [] then [] else rest[1..])
  {
    hide Unescape, Spaces, Escape, Copies, Utf8.Valid, Read;
    SpacesAre(63);
    UnescapeAscii(Spaces(63), rest);
  }

  lemma {:induction false} CopiesAreRead(k: nat)
    ensures LabelsOf(Unescaped(Copies(k))) == Labels(Copies(k)) && |Unescaped(Copies(k))| <= 64 * k
    ensures k > 0 ==> Unescaped(Copies(k)) != []
  {
    hide *;
    UnescapedCopies(k);
    if k > 0 {
      CopiesAreRead(k - 1);
      var rest := if k == 1 then [] else [DOT] + Unescaped(Copies(k - 1));
      UnescapeSpaces(rest);
      CopiesHead(k);
      LabelsOfHead(Spaces(63) + rest, Spaces(63), Unescaped(Copies(k - 1)));
      ConsIs(Spaces(63), Copies(k - 1));
    }
  }

  lemma UnescapedCopies(k: nat)
    ensures k == 0 ==> Copies(k) == [] && Unescaped(Copies(k)) == [] && LabelsOf(Unescaped(Copies(k))) == Labels([])
    ensures k > 0 ==>
      Unescaped(Copies(k)) == Spaces(63) + if k == 1 then [] else [DOT] + Unescaped(Copies(k - 1))
    ensures k == 1 ==> Unescaped(Copies(k - 1)) == []
  {
    if k > 0 {
      assert Copies(k)[1..] == Copies(k - 1);
      hide Spaces;
      assert Spaces(63) + [] == Spaces(63);
    }
  }

  lemma CopiesHead(k: nat)
    requires k > 0
    ensures Copies(k) == [Spaces(63)] + Copies(k - 1)
  {
  }

  lemma {:induction false} CopiesAreLong(k: nat)
    ensures |Behind(Copies(k))| == 253 * k && (k > 0 ==> |Normal(Copies(k))| == 253 * k - 1)
  {
    if k > 0 {
      CopiesAreLong(k - 1);
      CopiesHead(k);
      SpacesAre(63);
      assert Copies(k)[1..] == Copies(k - 1);
      hide Escape, Spaces, Copies;
    }
  }

  lemma {:induction false} SomeCopies(n: nat, k: nat)
    requires k <= n
    ensures Copies(n)[..k] == Copies(k)
  {
    if k > 0 {
      SomeCopies(n - 1, k - 1);
      CopiesHead(n);
      CopiesHead(k);
      hide Copies, Spaces;
    }
  }

  lemma RoomBehindCopies(k: nat)
    requires 0 < k < 5
    ensures RoomLeft(DOMAIN_NAME_MAX, true, Copies(5)[..k]) == 1015 - 253 * k
  {
    hide Copies, Normal, RoomLeft;
    SomeCopies(5, k);
    CopiesAreLong(k);
    RoomBehindNormal(Sink([], DOMAIN_NAME_MAX, true), Copies(k));
  }

  lemma CopiesOverrun()
    ensures !Jammed(Copies(5)) && LastIsCut(Copies(5))
  {
    hide Copies, RoomLeft, Escape, Spaces;
    forall k: nat | 0 < k < 5 ensures RoomLeft(DOMAIN_NAME_MAX, true, Copies(5)[..k]) > 1 {
      RoomBehindCopies(k);
    }
    RoomBehindCopies(4);
    LastCopy(5);
    SpacesAre(63);
  }

  lemma {:induction false} LastCopy(k: nat)
    requires k > 0
    ensures Copies(k)[k - 1] == Spaces(63)
  {
    CopiesHead(k);
    if k > 1 {
      LastCopy(k - 1);
    }
  }

  // Five labels of 63 spaces are a domain whose last label is cut behind a dot: its normal
  // form has no terminator, and joining reads on behind the buffer.
  lemma JoinOverruns(name: Option<CString>, kind: CString)
    requires name.Some? ==> IsServiceName(name.value)
    requires IsServiceType(kind) && |Normal(Types(kind))| < DOMAIN_NAME_MAX
    ensures IsDomainName(Unescaped(Copies(5))) && Join(name, kind, Unescaped(Copies(5))) == Runs
  {
    var domain := Unescaped(Copies(5));
    hide Copies, Unescaped, LabelsOf;
    CopiesAreRead(5);
    assert domain != [DOT];
    assert IsDomainName(domain) && Domain(domain) == Copies(5);
    hide *;
    JoinEnds(name, kind, domain);
    CopiesOverrun();
    FittingIsNotJammed(kind);
  }

  lemma FittingIsNotJammed(kind: CString)
    requires IsServiceType(kind) && |Normal(Types(kind))| < DOMAIN_NAME_MAX
    ensures !Jammed(Types(kind))
  {
    TypeIsName(kind);
    NormalizeIsExact(kind, DOMAIN_NAME_MAX);
    NormalizeInner(kind);
    hide Normalize, Normal, NameOf, Jammed, LastIsCut, IsServiceType;
  }

  lemma ConcatenatedLength(name: Option<CString>, kind: CString, domain: CString)
    ensures |Concatenated(name, kind, domain)| == |Front(name)| + |kind| + 1 + |domain|
  {
  }

  lemma TypeIsName(kind: CString)
    requires IsServiceType(kind)
    ensures NameOf(kind) == LabelsOf(kind) == Labels(Types(kind))
  {
    RawEmpty();
  }

  // ---------------------------------------------------------------- splitting

  predicate IsUnderscored(l: CString) {
    l != [] && l[0] == UNDERSCORE
  }

  // The labels before the first that lacks the underscore, and the others.
  function TypesOf(ls: seq<CString>): seq<CString> {
    if ls == [] || !IsUnderscored(ls[0]) then [] else [ls[0]] + TypesOf(ls[1..])
  }

  function DomainOf(ls: seq<CString>): seq<CString> {
    if ls == [] || !IsUnderscored(ls[0]) then ls else DomainOf(ls[1..])
  }

  datatype Splitting = Unsplittable | Parts(name: CString, types: seq<CString>, domain: seq<CString>)

  function PartsOf(ls: seq<CString>, named: bool): (s: Splitting)
    ensures s.Parts?
  {
    var behind := if named then Others(ls) else ls;
    Parts(if named then First(ls) else [], TypesOf(behind), DomainOf(behind))
  }

  function Split(p: CString, named: bool): Splitting {
    if Raw(p).Unreadable? then Unsplittable else PartsOf(Raw(p).list, named)
  }

  lemma {:induction false} TypesThenDomain(ts: seq<CString>, ds: seq<CString>)
    requires forall i :: 0 <= i < |ts| ==> IsUnderscored(ts[i])
    ensures TypesOf(ts + ds) == ts + TypesOf(ds) && DomainOf(ts + ds) == DomainOf(ds)
  {
    if ts == [] {
      assert ts + ds == ds;
    } else {
      TypesThenDomain(ts[1..], ds);
      assert (ts + ds)[1..] == ts[1..] + ds;
    }
  }

  // ---------------------------------------------------------------- round trip

  lemma {:induction false} NormalConcat(a: seq<CString>, b: seq<CString>)
    requires a != []
    ensures Normal(a + b) == Normal(a) + Behind(b)
    decreases |a|
  {
    assert (a + b)[1..] == a[1..] + b;
    if |a| == 1 {
      assert a + b == [a[0]] + b && a[1..] + b == b;
      assert Normal(a) == Escape(a[0]);
    } else {
      NormalConcat(a[1..], b);
      BehindConcat(a, b);
    }
  }

  lemma BehindConcat(a: seq<CString>, b: seq<CString>)
    requires |a| > 1 && (a + b)[1..] == a[1..] + b
    requires Normal(a[1..] + b) == Normal(a[1..]) + Behind(b)
    ensures Normal(a + b) == Normal(a) + Behind(b)
  {
    var e, n, t := Escape(a[0]), Normal(a[1..]), Behind(b);
    assert Normal(a) == e + ([DOT] + n);
    assert Normal(a + b) == e + ([DOT] + (n + t));
    hide Normal, Behind, Escape;
    Associative([DOT], n, t);
    Associative(e, [DOT] + n, t);
  }

  // A dot behind a name changes nothing.
  lemma {:induction false} RawOfNormal(ls: seq<CString>, dot: CString)
    requires ls != [] && forall i :: 0 <= i < |ls| ==> IsLabel(ls[i])
    requires dot == [] || dot == [DOT]
    ensures Raw(Normal(ls) + dot) == Labels(ls)
    decreases |ls|
  {
    hide *;
    var more := Behind(ls[1..]) + dot;
    BehindIs(ls[1..], dot);
    LabelIs(ls[0]);
    HeadOfNormal(ls, dot);
    RawHead(Normal(ls) + dot, ls[0], if more == [] then [] else more[1..]);
    if |ls| > 1 {
      RawOfNormal(ls[1..], dot);
    } else {
      RawNothing();
    }
    ConsIs(ls[0], ls[1..]);
    HeadAndTail(ls);
  }

  lemma HeadAndTail(ls: seq<CString>)
    requires ls != []
    ensures [ls[0]] + ls[1..] == ls
  {
  }

  lemma RawNothing()
    ensures Raw([]) == Labels([])
  {
  }

  lemma BehindIs(ls: seq<CString>, dot: CString)
    ensures ls != [] ==> Behind(ls) + dot != [] && (Behind(ls) + dot)[1..] == Normal(ls) + dot
    ensures ls == [] ==> Behind(ls) + dot == dot
  {
  }

  lemma LabelIs(l: CString)
    requires IsLabel(l)
    ensures 0 < |l| < LABEL_MAX && Utf8.Valid(l)
  {
  }

  lemma ConsIs(l: CString, ls: seq<CString>)
    ensures Cons(l, Labels(ls)) == Labels([l] + ls)
  {
  }

  lemma RawHead(t: CString, l: CString, rest: CString)
    requires t != [] && Unescape(t, LABEL_MAX) == Label(l, rest)
    ensures Raw(t) == Cons(l, Raw(rest))
  {
  }

  lemma HeadOfNormal(ls: seq<CString>, dot: CString)
    requires ls != [] && |ls[0]| < LABEL_MAX && ls[0] != []
    requires dot == [] || dot == [DOT]
    ensures var more := Behind(ls[1..]) + dot;
      Unescape(Normal(ls) + dot, LABEL_MAX) ==
        if Utf8.Valid(ls[0]) then Label(ls[0], if more == [] then [] else more[1..]) else Nothing
    ensures Normal(ls) != []
  {
    var more := Behind(ls[1..]) + dot;
    assert Normal(ls) == Escape(ls[0]) + Behind(ls[1..]);
    assert more != [] ==> more[0] == DOT;
    hide Normal, Behind, Escape;
    Associative(Escape(ls[0]), Behind(ls[1..]), dot);
    ReadOfEscape(ls[0], more);
  }

  // Joined, the parts are the labels of one name, the root domain leaving a dot at the end.
  lemma ConcatenatedIsNormal(name: CString, ts: seq<CString>, ds: seq<CString>)
    requires ts != []
    ensures Concatenated(Some(name), Normal(ts), Normal(ds)) == Normal([name] + (ts + ds)) + (if ds == [] then [DOT] else [])
    ensures Concatenated(None, Normal(ts), Normal(ds)) == Normal(ts + ds) + (if ds == [] then [DOT] else [])
  {
    var dot := if ds == [] then [DOT] else [];
    assert [DOT] + Normal(ds) == Behind(ds) + dot;
    NormalConcat(ts, ds);
    NormalConcat([name], ts + ds);
    assert Normal([name]) == Escape(name) by {
      assert [name][1..] == [];
    }
    assert Behind(ts + ds) == [DOT] + Normal(ts + ds);
    hide Normal, Behind, Escape;
    var e, t, d := Escape(name), Normal(ts), Normal(ds);
    calc {
      t + [DOT] + d;
      { Associative(t, [DOT], d); }
      t + (Behind(ds) + dot);
      { Associative(t, Behind(ds), dot); }
      Normal(ts + ds) + dot;
    }
    calc {
      Concatenated(Some(name), t, d);
      { Associative(e + [DOT], t, [DOT]); }
      e + [DOT] + (t + [DOT]) + d;
      { Associative(e + [DOT], t + [DOT], d); }
      e + [DOT] + (Normal(ts + ds) + dot);
      { Associative(e + [DOT], Normal(ts + ds), dot); }
      e + [DOT] + Normal(ts + ds) + dot;
      { Associative(e, [DOT], Normal(ts + ds)); }
      Normal([name] + (ts + ds)) + dot;
    }
    assert [] + t == t;
  }

  predicate AreTypes(ts: seq<CString>) {
    forall i :: 0 <= i < |ts| ==> IsLabel(ts[i]) && IsUnderscored(ts[i])
  }

  predicate AreLabels(ls: seq<CString>) {
    forall i :: 0 <= i < |ls| ==> IsLabel(ls[i])
  }

  lemma RawOfNamed(name: CString, ls: seq<CString>, dot: CString)
    requires IsServiceName(name) && AreLabels(ls)
    requires dot == [] || dot == [DOT]
    ensures Raw(Normal([name] + ls) + dot) == if Utf8.Valid(name) then Labels([name] + ls) else Unreadable
  {
    var all := [name] + ls;
    if Utf8.Valid(name) {
      assert forall i :: 0 < i < |all| ==> all[i] == ls[i - 1];
      RawOfNormal(all, dot);
    } else {
      HeadOfNormal(all, dot);
    }
  }

  lemma TypesAndDomain(ts: seq<CString>, ds: seq<CString>)
    requires AreTypes(ts)
    ensures TypesOf(ts + ds) == ts && DomainOf(ts + ds) == ds <==> ds == [] || !IsUnderscored(ds[0])
  {
    TypesThenDomain(ts, ds);
    assert ts + [] == ts;
    assert |ts + TypesOf(ds)| == |ts| + |TypesOf(ds)|;
  }

  // Splitting what was joined gives the parts back exactly when the name is UTF-8 and the
  // domain does not begin like a service type.
  lemma SplitOfJoin(name: CString, kind: CString, domain: CString)
    requires IsServiceName(name) && IsServiceType(kind) && IsDomainName(domain)
    ensures var ts, ds := Types(kind), Domain(domain);
      Utf8.IsUtf8(name) && (ds == [] || !IsUnderscored(ds[0])) <==>
      Split(Concatenated(Some(name), Normal(ts), Normal(ds)), true) == Parts(name, ts, ds)
  {
    var ts, ds := Types(kind), Domain(domain);
    TypesNotEmpty(kind);
    Utf8.ValidIsUtf8(name);
    ConcatenatedIsNormal(name, ts, ds);
    assert AreTypes(ts) && AreLabels(ts + ds);
    hide *;
    RawOfNamed(name, ts + ds, if ds == [] then [DOT] else []);
    TypesAndDomain(ts, ds);
    SplitNamed(Concatenated(Some(name), Normal(ts), Normal(ds)), name, ts + ds);
  }

  lemma SplitNamed(p: CString, name: CString, ls: seq<CString>)
    requires Raw(p).Unreadable? || Raw(p) == Labels([name] + ls)
    ensures Split(p, true) == if Raw(p).Unreadable? then Unsplittable else Parts(name, TypesOf(ls), DomainOf(ls))
  {
    assert Others([name] + ls) == ls;
  }

  lemma TypesNotEmpty(kind: CString)
    requires IsServiceType(kind)
    ensures Types(kind) != []
  {
  }

  // The same without a name.
  lemma SplitOfJoinUnnamed(kind: CString, domain: CString)
    requires IsServiceType(kind) && IsDomainName(domain)
    ensures var ts, ds := Types(kind), Domain(domain);
      ds == [] || !IsUnderscored(ds[0]) <==>
      Split(Concatenated(None, Normal(ts), Normal(ds)), false) == Parts([], ts, ds)
  {
    var ts, ds := Types(kind), Domain(domain);
    TypeIsName(kind);
    TypesNotEmpty(kind);
    ConcatenatedIsNormal([], ts, ds);
    assert AreTypes(ts) && AreLabels(ts + ds);
    hide Concatenated, Normal, IsServiceType, IsDomainName, NameOf, LabelsOf, Types, Domain;
    RawOfNormal(ts + ds, if ds == [] then [DOT] else []);
    TypesAndDomain(ts, ds);
  }

  // A name of one byte that is no UTF-8 passes the check and, with room in the inner
  // buffers, is joined, but the result cannot be split.
  lemma OtherBytesAreNotSplit(kind: CString, domain: CString)
    requires IsServiceType(kind) && IsDomainName(domain)
    ensures IsServiceName([255])
    ensures var p := Concatenated(Some([255]), Normal(Types(kind)), Normal(Domain(domain)));
      && Split(p, true).Unsplittable?
      && (Join(Some([255]), kind, domain) == Text(p) <==>
            |Normal(Types(kind))| < DOMAIN_NAME_MAX && |Normal(Domain(domain))| < DOMAIN_NAME_MAX)
  {
    assert !Utf8.Valid([255]) by {
      assert Utf8.First([255]) == 0;
    }
    var ts, ds := Types(kind), Domain(domain);
    assert IsServiceName([255]);
    TypesNotEmpty(kind);
    assert AreLabels(ts + ds);
    hide *;
    JoinIsExact(Some([255]), kind, domain);
    ConcatenatedIsNormal([255], ts, ds);
    RawOfNamed([255], ts + ds, if ds == [] then [DOT] else []);
    SplitNamed(Concatenated(Some([255]), Normal(ts), Normal(ds)), [255], ts + ds);
  }

  // So with room in the inner buffers, splitting inverts joining.
  lemma SplitInvertsJoin(name: CString, kind: CString, domain: CString)
    requires IsServiceName(name) && IsServiceType(kind) && IsDomainName(domain)
    requires Utf8.IsUtf8(name) && (Domain(domain) == [] || !IsUnderscored(Domain(domain)[0]))
    requires |Normal(Types(kind))| < DOMAIN_NAME_MAX && |Normal(Domain(domain))| < DOMAIN_NAME_MAX
    ensures Join(Some(name), kind, domain).Text?
    ensures Split(Join(Some(name), kind, domain).text, true) == Parts(name, Types(kind), Domain(domain))
  {
    hide *;
    JoinIsExact(Some(name), kind, domain);
    SplitOfJoin(name, kind, domain);
  }

  // ---------------------------------------------------------------- the routines

  // What fits into a buffer of some size, terminated
  function Truncated(s: CString, size: nat): (t: CString)
    requires 0 < size
    ensures t <= s && |t| < size && (|s| < size ==> t == s) && (|s| >= size ==> |t| + 1 == size)
  {
    if |s| < size then s else s[..size - 1]
  }

  // snprintf and strlcpy of one text
  method Copy(dest: array<byte>, src: CString, size: nat)
    requires size <= dest.Length
    modifies dest
    ensures 0 < size ==> Holds(dest[..], 0, Truncated(src, size))
    ensures size == 0 ==> dest[..] == old(dest[..])
  {
    if size == 0 {
      return;
    }
    var k := 0;
    while k < size - 1 && k < |src|
      invariant 0 <= k <= size - 1 && k <= |src|
      invariant dest[..k] == src[..k]
    {
      dest[k] := src[k];
      k := k + 1;
    }
    dest[k] := 0;
  }

  datatype JoinCode = Ok | InvalidServiceName | InvalidServiceType | InvalidDomainName | AssertionFailed | Overrun

  predicate JoinReports(code: JoinCode, j: Joining) {
    match j
    case BadName => code.InvalidServiceName?
    case BadType => code.InvalidServiceType?
    case BadDomain => code.InvalidDomainName?
    case Stops => code.AssertionFailed?
    case Runs => code.Overrun?
    case Text(_) => code.Ok?
  }

  // avahi_service_name_join; reading a text without terminator is reported as an overrun.
  method ServiceNameJoin(p: array<byte>, size: nat, name: Option<CString>, kind: CString, domain: CString)
    returns (code: JoinCode)
    requires size <= p.Length
    modifies p
    ensures JoinReports(code, Join(name, kind, domain))
    ensures code.Ok? && 0 < size ==> Holds(p[..], 0, Truncated(Join(name, kind, domain).text, size))
    ensures !code.Ok? || size == 0 ==> p[..] == old(p[..])
  {
    hide Normalize, Holds, IsServiceType, IsDomainName;
    if name.Some? && (|name.value| >= LABEL_MAX || name.value == []) {
      return InvalidServiceName;
    }
    var typeOk := ValidServiceType(kind);
    if !typeOk {
      return InvalidServiceType;
    }
    var domainOk := ValidDomainName(domain);
    if !domainOk {
      return InvalidDomainName;
    }
    var front: CString := [];
    if name.Some? {
      front := EscapedName(name.value);
    }
    var k, normalKind := Normalized(kind);
    if k.NoName? {
      return InvalidServiceType;
    }
    if k.AssertionFailed? {
      return JoinCode.AssertionFailed;
    }
    var d, normalDomain := Normalized(domain);
    if d.NoName? {
      return InvalidDomainName;
    }
    if d.AssertionFailed? {
      return JoinCode.AssertionFailed;
    }
    if normalKind.None? || normalDomain.None? {
      return Overrun;
    }
    Copy(p, front + normalKind.value + [DOT] + normalDomain.value, size);
    return Ok;
  }

  // The name escaped in a buffer of four times LABEL_MAX bytes, which always suffices, and
  // the dot of the format.
  method EscapedName(name: CString) returns (front: CString)
    requires IsServiceName(name)
    ensures front == Front(Some(name))
  {
    var buffer := new byte[LABEL_MAX * 4];
    var ok, end, room := EscapeLabel(name, buffer, 0, LABEL_MAX * 4);
    assert ok;
    WroteBehind(buffer[..], buffer[..], 0, LABEL_MAX * 4, Fit(name, LABEL_MAX * 4));
    var e: CString := buffer[..end];
    return e + [DOT];
  }

  // Normalisation in a buffer of DOMAIN_NAME_MAX bytes; no text if its terminator is missing.
  method Normalized(s: CString) returns (r: Report, text: Option<CString>)
    ensures Reports(r, Normalize(s, DOMAIN_NAME_MAX))
    ensures r.Done? ==> text.Some? == Normalize(s, DOMAIN_NAME_MAX).ended
    ensures r.Done? && text.Some? ==> text.value == Normalize(s, DOMAIN_NAME_MAX).text
  {
    hide Normalize, NormalizeFrom, Holds;
    var buffer := new byte[DOMAIN_NAME_MAX];
    var end, ended;
    r, end, ended := NormalizeName(s, buffer, DOMAIN_NAME_MAX);
    text := None;
    if r.Done? && ended {
      text := Some(buffer[..end]);
    }
  }

  // ---------------------------------------------------------------- splitting, in place

  // Labels go to the type until one lacks the underscore; from then on to the domain.
  predicate Progress(whole: Splitting, ts: seq<CString>, ds: seq<CString>, rest: seq<CString>, inDomain: bool) {
    && whole.Parts?
    && if inDomain then whole.types == ts && whole.domain == ds + rest
       else ds == [] && whole.types == ts + TypesOf(rest) && whole.domain == DomainOf(rest)
  }

  lemma ProgressStep(whole: Splitting, ts: seq<CString>, ds: seq<CString>, rest: seq<CString>, inDomain: bool)
    requires Progress(whole, ts, ds, rest, inDomain) && rest != []
    ensures !inDomain && IsUnderscored(rest[0]) ==> Progress(whole, ts + [rest[0]], ds, rest[1..], false)
    ensures inDomain || !IsUnderscored(rest[0]) ==> Progress(whole, ts, ds + [rest[0]], rest[1..], true)
    ensures !inDomain && IsUnderscored(rest[0]) ==> ts + [rest[0]] <= whole.types
    ensures inDomain || !IsUnderscored(rest[0]) ==> ds + [rest[0]] <= whole.domain && whole.types == ts
  {
    assert rest == [rest[0]] + rest[1..];
    if !inDomain && IsUnderscored(rest[0]) {
      assert ts + TypesOf(rest) == (ts + [rest[0]]) + TypesOf(rest[1..]);
    } else {
      assert ts + [] == ts;
      assert ds + rest == (ds + [rest[0]]) + rest[1..];
    }
  }

  lemma NormalIsLonger(ls: seq<CString>, i: nat, j: nat)
    requires i <= j <= |ls|
    ensures |Normal(ls[..i])| <= |Normal(ls[..j])|
    ensures 0 < i < j ==> |Normal(ls[..i])| < |Normal(ls[..j])|
  {
    if i == 0 {
      assert Normal(ls[..0]) == [];
    } else {
      NormalConcat(ls[..i], ls[i..j]);
      assert ls[..j] == ls[..i] + ls[i..j];
    }
  }

  // Where the labels of a list cease to fit decides how it ends.
  lemma OverflowsAt(ls: seq<CString>, before: seq<CString>, l: CString, size: nat)
    requires before + [l] <= ls
    requires |Normal(before)| < size <= |Normal(before + [l])|
    ensures |Normal(ls)| >= size
    ensures FillsUp(ls, size) <==> before != [] && |Normal(before)| + 1 == size
  {
    var k := |before|;
    assert ls[..k] == before && ls[..k + 1] == before + [l] && ls[..|ls|] == ls;
    NormalIsLonger(ls, k + 1, |ls|);
    if FillsUp(ls, size) {
      var i :| 0 < i < |ls| && |Normal(ls[..i])| + 1 == size;
      if i < k {
        NormalIsLonger(ls, i, k);
      } else if i > k {
        NormalIsLonger(ls, k + 1, i);
      }
    }
  }

  // A sink that holds the labels so far, and what the next one does to it.
  lemma NormalStep(ls: seq<CString>, l: CString, room: nat)
    requires 0 < room
    ensures var k := Sink(Normal(ls), room, ls == []); var a := Add(k, l);
      && (a.Whole? <==> |Normal(ls + [l])| < |Normal(ls)| + room)
      && (a.Aborted? <==> ls != [] && room == 1)
      && (a.Whole? ==> a.sink.text == Normal(ls + [l]))
  {
    if ls == [] {
      assert ls + [l] == [l] && [l][1..] == [];
    } else {
      NormalConcat(ls, [l]);
      assert [l][1..] == [];
      assert Normal([l]) == Escape(l) && Behind([l]) == [DOT] + Normal([l]);
      Associative(Normal(ls), [DOT], Escape(l));
    }
  }

  // One of the two growing buffers of the splitting: the text of its labels, terminated.
  ghost predicate Sunk(buffer: seq<byte>, size: nat, at: nat, empty: bool, ls: seq<CString>) {
    && at < size <= |buffer|
    && empty == (ls == [])
    && at == |Normal(ls)| && buffer[..at] == Normal(ls) && buffer[at] == 0
  }

  lemma SunkHolds(buffer: seq<byte>, size: nat, at: nat, empty: bool, ls: seq<CString>)
    requires Sunk(buffer, size, at, empty, ls)
    ensures Holds(buffer, 0, Normal(ls)) && |Normal(ls)| < size
  {
  }

  method PutLabel(l: CString, dest: array<byte>, size: nat, at: nat, empty: bool, ghost ls: seq<CString>)
    returns (o: Outcome, end: nat)
    requires Sunk(dest[..], size, at, empty, ls)
    modifies dest
    ensures o.Fitted? <==> |Normal(ls + [l])| < size
    ensures o.Broken? <==> ls != [] && |Normal(ls)| + 1 == size
    ensures o.Fitted? ==> Sunk(dest[..], size, end, false, ls + [l])
  {
    NormalStep(ls, l, size - at);
    hide Add, Normal;
    var room;
    o, end, room := AddLabel(l, dest, at, size - at, empty, Normal(ls));
    assert o.Fitted? ==> dest[..][..end] == dest[..end];
  }

  // A splitting that is under way: the parts of the labels that can be read, and whether
  // all of them can.
  ghost predicate Underway(p: CString, named: bool, t: CString, ts: seq<CString>, ds: seq<CString>, inDomain: bool) {
    && (Raw(p).Unreadable? <==> Raw(t).Unreadable?)
    && Progress(PartsOf(Legible(p), named), ts, ds, Legible(t), inDomain)
  }

  lemma UnderwayStep(p: CString, named: bool, t: CString, ts: seq<CString>, ds: seq<CString>, inDomain: bool)
    requires Underway(p, named, t, ts, ds, inDomain) && t != []
    ensures var r, whole := Unescape(t, LABEL_MAX), PartsOf(Legible(p), named);
      if r.Nothing? then Raw(p).Unreadable? && whole.types == ts && whole.domain == ds
      else if !inDomain && IsUnderscored(r.bytes) then
        Underway(p, named, r.rest, ts + [r.bytes], ds, false) && ts + [r.bytes] <= whole.types
      else
        Underway(p, named, r.rest, ts, ds + [r.bytes], true) && ds + [r.bytes] <= whole.domain && whole.types == ts
  {
    hide Unescape, PartsOf;
    if Unescape(t, LABEL_MAX).Label? {
      ProgressStep(PartsOf(Legible(p), named), ts, ds, Legible(t), inDomain);
      assert Legible(t)[1..] == Legible(Unescape(t, LABEL_MAX).rest);
    }
  }

  lemma UnderwayEnd(p: CString, named: bool, ts: seq<CString>, ds: seq<CString>, inDomain: bool)
    requires Underway(p, named, [], ts, ds, inDomain)
    ensures Raw(p).Labels? && PartsOf(Legible(p), named).types == ts && PartsOf(Legible(p), named).domain == ds
  {
  }

  lemma UnderwayStart(p: CString, named: bool)
    ensures !named ==> Underway(p, named, p, [], [], false)
    ensures p == [] ==> Raw(p).Labels? && PartsOf(Legible(p), named) == Parts([], [], [])
    ensures named && p != [] ==> var r, whole := Unescape(p, LABEL_MAX), PartsOf(Legible(p), named);
      if r.Nothing? then Raw(p).Unreadable? && whole.types == whole.domain == []
      else Underway(p, named, r.rest, [], [], false) && whole.name == r.bytes
  {
    hide Unescape;
    if named && p != [] && Unescape(p, LABEL_MAX).Label? {
      assert Others(Legible(p)) == Legible(Unescape(p, LABEL_MAX).rest);
    }
  }

  // The labels of a text that can be read are those that were read.
  lemma {:induction false} LegibleIsRaw(t: CString)
    requires Raw(t).Labels?
    ensures Legible(t) == Raw(t).list
    decreases |t|
  {
    hide Unescape;
    if t != [] {
      LegibleIsRaw(Unescape(t, LABEL_MAX).rest);
    }
  }

  datatype SplitCode = Done | BadLabel | NoMemory | Asserted

  // How a splitting ends. A buffer that is too short stops it at the label that overflows,
  // before anything behind that label is read; the types come before the domain.
  ghost function SplitOutcome(p: CString, named: bool, kindSize: nat, domainSize: nat): SplitCode {
    var s := PartsOf(Legible(p), named);
    if |Normal(s.types)| >= kindSize then if FillsUp(s.types, kindSize) then Asserted else NoMemory
    else if |Normal(s.domain)| >= domainSize then if FillsUp(s.domain, domainSize) then Asserted else NoMemory
    else if Raw(p).Unreadable? then BadLabel
    else SplitCode.Done
  }

  lemma OverflowsInTypes(p: CString, named: bool, ts: seq<CString>, l: CString, kindSize: nat, domainSize: nat)
    requires ts + [l] <= PartsOf(Legible(p), named).types
    requires |Normal(ts)| < kindSize <= |Normal(ts + [l])|
    ensures SplitOutcome(p, named, kindSize, domainSize) ==
      if ts != [] && |Normal(ts)| + 1 == kindSize then Asserted else NoMemory
  {
    hide PartsOf, Legible, Normal, FillsUp;
    OverflowsAt(PartsOf(Legible(p), named).types, ts, l, kindSize);
  }

  lemma OverflowsInDomain(p: CString, named: bool, ds: seq<CString>, l: CString, kindSize: nat, domainSize: nat)
    requires |Normal(PartsOf(Legible(p), named).types)| < kindSize
    requires ds + [l] <= PartsOf(Legible(p), named).domain
    requires |Normal(ds)| < domainSize <= |Normal(ds + [l])|
    ensures SplitOutcome(p, named, kindSize, domainSize) ==
      if ds != [] && |Normal(ds)| + 1 == domainSize then Asserted else NoMemory
  {
    hide PartsOf, Legible, Normal, FillsUp;
    OverflowsAt(PartsOf(Legible(p), named).domain, ds, l, domainSize);
  }

  lemma NothingOverflows(p: CString, named: bool, kindSize: nat, domainSize: nat)
    requires |Normal(PartsOf(Legible(p), named).types)| < kindSize
    requires |Normal(PartsOf(Legible(p), named).domain)| < domainSize
    ensures SplitOutcome(p, named, kindSize, domainSize) == if Raw(p).Unreadable? then BadLabel else SplitCode.Done
  {
  }

  datatype State = NAME | TYPE | DOMAIN

  // avahi_service_name_split
  method ServiceNameSplit(p: CString, name: array?<byte>, nameSize: nat, kind: array<byte>, kindSize: nat,
                          domain: array<byte>, domainSize: nat)
    returns (code: SplitCode)
    requires name != null ==> 0 < nameSize <= name.Length && name != kind && name != domain
    requires 0 < kindSize <= kind.Length && 0 < domainSize <= domain.Length && kind != domain
    modifies if name == null then {} else {name}, kind, domain
    ensures code == SplitOutcome(p, name != null, kindSize, domainSize)
    ensures code.Done? ==> var s := Split(p, name != null);
      && s.Parts? && Holds(kind[..], 0, Normal(s.types)) && Holds(domain[..], 0, Normal(s.domain))
      && (name != null ==> Holds(name[..], 0, Truncated(s.name, nameSize)))
  {
    hide Sunk, Underway, PartsOf, SplitOutcome, Holds, Truncated, Normal, Unescape, Legible, Raw;
    ghost var named, whole := name != null, PartsOf(Legible(p), name != null);
    UnderwayStart(p, named);
    assert p[0..] == p;
    var state := TYPE;
    if name != null {
      name[0] := 0;
      state := NAME;
      HoldsNothing(name[..], nameSize);
    }
    kind[0], domain[0] := 0, 0;
    var at, kindEnd, domainEnd, kindEmpty, domainEmpty := 0, 0, 0, true, true;
    ghost var ts: seq<CString>, ds: seq<CString> := [], [];
    SunkNothing(kind[..], kindSize);
    SunkNothing(domain[..], domainSize);
    while at < |p|
      invariant 0 <= at <= |p| && 0 <= kindEnd && 0 <= domainEnd
      invariant state.NAME? ==> at == 0 && named && ts == ds == []
      invariant !state.NAME? ==> Underway(p, named, p[at..], ts, ds, state.DOMAIN?)
      invariant Sunk(kind[..], kindSize, kindEnd, kindEmpty, ts)
      invariant Sunk(domain[..], domainSize, domainEnd, domainEmpty, ds)
      invariant name != null ==> Holds(name[..], 0, Truncated(if state.NAME? then [] else whole.name, nameSize))
      decreases |p| - at
    {
      ghost var was := p[at..];
      var ok, l, next := NextLabel(p, at);
      if !state.NAME? {
        UnderwayStep(p, named, was, ts, ds, state.DOMAIN?);
      }
      SunkHolds(kind[..], kindSize, kindEnd, kindEmpty, ts);
      SunkHolds(domain[..], domainSize, domainEnd, domainEmpty, ds);
      if !ok {
        NothingOverflows(p, named, kindSize, domainSize);
        return BadLabel;
      }
      at := next;
      if state.NAME? {
        Copy(name, l, nameSize);
        state := TYPE;
      } else if state.TYPE? && l != [] && l[0] == UNDERSCORE {
        var o;
        o, kindEnd := PutLabel(l, kind, kindSize, kindEnd, kindEmpty, ts);
        if !o.Fitted? {
          OverflowsInTypes(p, named, ts, l, kindSize, domainSize);
          return if o.Broken? then Asserted else NoMemory;
        }
        ts, kindEmpty := ts + [l], false;
      } else {
        state := DOMAIN;
        var o;
        o, domainEnd := PutLabel(l, domain, domainSize, domainEnd, domainEmpty, ds);
        if !o.Fitted? {
          OverflowsInDomain(p, named, ds, l, kindSize, domainSize);
          return if o.Broken? then Asserted else NoMemory;
        }
        ds, domainEmpty := ds + [l], false;
      }
    }
    assert p[at..] == [];
    if !state.NAME? {
      UnderwayEnd(p, named, ts, ds, state.DOMAIN?);
    }
    SunkHolds(kind[..], kindSize, kindEnd, kindEmpty, ts);
    SunkHolds(domain[..], domainSize, domainEnd, domainEmpty, ds);
    NothingOverflows(p, named, kindSize, domainSize);
    LegibleIsRaw(p);
    return SplitCode.Done;
  }

  // "_a._b" into three bytes for the type, whatever room the domain gets
  lemma SplitTripsAssertion(domainSize: nat)
    ensures SplitOutcome([UNDERSCORE, 97, DOT, UNDERSCORE, 98], false, 3, domainSize) == Asserted
  {
    var ls: seq<CString> := [[UNDERSCORE, 97], [UNDERSCORE, 98]];
    UnderscoredLetter(97);
    UnderscoredLetter(98);
    NormalOfTwo(97, 98);
    assert Normal(ls) + [] == Normal(ls);
    RawOfNormal(ls, []);
    LegibleIsRaw(Normal(ls));
    TypesThenDomain(ls, []);
    assert ls + [] == ls && TypesOf([]) == [];
    assert PartsOf(ls, false).types == ls;
    hide *;
    FillsUpAfter(ls, 1, 3);
    AssertedInTypes(Normal(ls), false, 3, domainSize);
  }

  lemma AssertedInTypes(p: CString, named: bool, kindSize: nat, domainSize: nat)
    requires var ts := PartsOf(Legible(p), named).types; FillsUp(ts, kindSize) && |Normal(ts)| >= kindSize
    ensures SplitOutcome(p, named, kindSize, domainSize) == Asserted
  {
  }

  lemma UnderscoredLetter(c: byte)
    requires IsLower(c)
    ensures IsLabel([UNDERSCORE, c]) && Escape([UNDERSCORE, c]) == [UNDERSCORE, c]
  {
    EscapeOfLetter(c);
    LetterIsLabel(c);
    assert [UNDERSCORE, c][1..] == [c];
    assert EscapeByte(UNDERSCORE) == [UNDERSCORE];
    assert Utf8.First([UNDERSCORE, c]) == UNDERSCORE && |Utf8.Encode(UNDERSCORE)| == 1;
  }

  lemma NormalOfTwo(a: byte, b: byte)
    requires IsLower(a) && IsLower(b)
    ensures var ls: seq<CString> := [[UNDERSCORE, a], [UNDERSCORE, b]];
      Normal(ls) == [UNDERSCORE, a, DOT, UNDERSCORE, b] && Normal(ls[..1]) == [UNDERSCORE, a]
  {
    UnderscoredLetter(a);
    UnderscoredLetter(b);
    hide Escape, IsLabel;
    var x, y: CString := [UNDERSCORE, a], [UNDERSCORE, b];
    assert [x, y][1..] == [y] && [y][1..] == [] && [x, y][..1] == [x] && [x][1..] == [];
    assert Normal([y]) == y;
    assert Behind([y]) == [DOT, UNDERSCORE, b];
  }

  lemma HoldsNothing(buffer: seq<byte>, size: nat)
    requires 0 < size <= |buffer| && buffer[0] == 0
    ensures Holds(buffer, 0, Truncated([], size))
  {
  }

  lemma SunkNothing(buffer: seq<byte>, size: nat)
    requires 0 < size <= |buffer| && buffer[0] == 0
    ensures Sunk(buffer, size, 0, true, [])
  {
  }
}
