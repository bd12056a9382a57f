/**
 Domain names: sequences of labels and their escaped text. Normalisation, comparison
 and hashing, and the validity predicates.
 */
module DomainNames {
  import opened CStrings
  import opened DomainLabels
  import Utf8

  // 63 bytes and a terminator, section 2.3.4 of RFC 1035
  const LABEL_MAX: nat := 64
  const DOMAIN_NAME_MAX: nat := 1014

  // ---------------------------------------------------------------- labels

  predicate IsLabel(l: CString) {
    0 < |l| < LABEL_MAX && Utf8.Valid(l)
  }

  datatype Labels = Unreadable | Labels(list: seq<CString>)

  function Cons(l: CString, ls: Labels): Labels {
    if ls.Unreadable? then Unreadable else Labels([l] + ls.list)
  }

  // Label after label until the text ends.
  function Raw(t: CString): Labels
    decreases |t|
  {
    if t == [] then Labels([]) else
      match Unescape(t, LABEL_MAX)
      case Nothing => Unreadable
      case Label(l, rest) => Cons(l, Raw(rest))
  }

  // The same without empty labels.
  function LabelsOf(t: CString): (r: Labels)
    ensures r.Labels? ==> r == Raw(t) && forall i :: 0 <= i < |r.list| ==> IsLabel(r.list[i])
    decreases |t|
  {
    if t == [] then Labels([]) else
      match Unescape(t, LABEL_MAX)
      case Nothing => Unreadable
      case Label(l, rest) => if l == [] then Unreadable else Cons(l, LabelsOf(rest))
  }

  // The labels of a text up to its end or to the first that cannot be read.
  function Legible(t: CString): seq<CString>
    decreases |t|
  {
    if t == [] then [] else
      match Unescape(t, LABEL_MAX)
      case Nothing => []
      case Label(l, rest) => [l] + Legible(rest)
  }

  function BeforeEmpty(ls: seq<CString>): seq<CString> {
    if ls == [] || ls[0] == [] then [] else [ls[0]] + BeforeEmpty(ls[1..])
  }

  // The labels that normalisation comes to: it stops at an empty one, too.
  function Leading(t: CString): seq<CString> {
    BeforeEmpty(Legible(t))
  }

  // A name is its labels; both "" and "." are the root.
  function NameOf(t: CString): (r: Labels)
    ensures r.Labels? ==> forall i :: 0 <= i < |r.list| ==> IsLabel(r.list[i])
  {
    if t == [DOT] then Labels([]) else LabelsOf(t)
  }

  // ---------------------------------------------------------------- normal form

  function Normal(ls: seq<CString>): CString
    decreases |ls|, 0
  {
    if ls == [] then [] else Escape(ls[0]) + Behind(ls[1..])
  }

  // Labels that follow others.
  function Behind(ls: seq<CString>): CString
    decreases |ls|, 1
  {
    if ls == [] then [] else [DOT] + Normal(ls)
  }

  // The normal form of a name is read back as the same labels.
  lemma {:induction false} NormalKeepsLabels(ls: seq<CString>)
    requires forall i :: 0 <= i < |ls| ==> IsLabel(ls[i])
    ensures LabelsOf(Normal(ls)) == NameOf(Normal(ls)) == Labels(ls)
    decreases |ls|
  {
    if ls == [] {
    } else {
      hide Normal, Behind, LabelsOf, Unescape, IsLabel;
      NormalHead(ls);
      LabelsOfHead(Normal(ls), ls[0], Normal(ls[1..]));
      NormalKeepsLabels(ls[1..]);
      assert ls == [ls[0]] + ls[1..];
    }
  }

  lemma LabelsOfHead(t: CString, l: CString, rest: CString)
    requires t != [] && l != [] && Unescape(t, LABEL_MAX) == Label(l, rest)
    ensures LabelsOf(t) == Cons(l, LabelsOf(rest))
  {
  }

  lemma NormalHead(ls: seq<CString>)
    requires ls != [] && IsLabel(ls[0])
    ensures Unescape(Normal(ls), LABEL_MAX) == Label(ls[0], Normal(ls[1..]))
    ensures Normal(ls) != [] && Normal(ls)[0] != DOT
  {
    var more := Behind(ls[1..]);
    assert more != [] ==> more[1..] == Normal(ls[1..]);
    assert more == [] ==> Normal(ls[1..]) == [];
    assert Normal(ls) == Escape(ls[0]) + more;
    hide Normal, Behind;
    assert Escape(ls[0])[0] != DOT;
    hide Escape;
    ReadOfEscape(ls[0], more);
  }

  // ---------------------------------------------------------------- a buffer for labels

  // What a buffer holds so far, what is left of it, and whether a label came yet.
  datatype Sink = Sink(text: CString, room: nat, empty: bool)

  // Adding a label takes its dot, then the escapes that fit. A dot in the last byte leaves
  // no room for a terminator and trips the assertion in the escaping.
  datatype Added = Aborted | Short(sink: Sink) | Whole(sink: Sink)

  function Dotted(k: Sink): CString {
    if k.empty then [] else [DOT]
  }

  function Add(k: Sink, l: CString): (a: Added)
    requires 0 < k.room
    ensures a.Whole? <==> |Dotted(k)| + |Escape(l)| < k.room
    ensures a.Whole? ==> a.sink.text == k.text + Dotted(k) + Escape(l)
    ensures !a.Aborted? ==> 0 < a.sink.room && |a.sink.text| + a.sink.room == |k.text| + k.room && !a.sink.empty
  {
    var room := k.room - |Dotted(k)|;
    if room == 0 then Aborted
    else
      var fit := Fit(l, room);
      var sink := Sink(k.text + Dotted(k) + fit, room - |fit|, false);
      if |Escape(l)| < room then Whole(sink) else Short(sink)
  }

  // The three ways in which adding a label ends, as a method reports them.
  datatype Outcome = Fitted | Cut | Broken

  predicate Agrees(o: Outcome, a: Added) {
    match a
    case Aborted => o.Broken?
    case Short(_) => o.Cut?
    case Whole(_) => o.Fitted?
  }

  method AddLabel(l: CString, dest: array<byte>, at: nat, size: nat, empty: bool, ghost text: CString)
    returns (o: Outcome, end: nat, room: nat)
    requires 0 < size && at + size <= dest.Length
    requires dest[..at] == text
    modifies dest
    ensures Agrees(o, Add(Sink(text, size, empty), l))
    ensures !o.Broken? ==> at <= end && 0 < room && end + room == at + size
    ensures !o.Broken? ==> var k := Add(Sink(text, size, empty), l).sink; dest[..end] == k.text && room == k.room
    ensures o.Fitted? ==> dest[end] == 0
    ensures o.Cut? && end == 0 ==> dest[0] == old(dest[0])
  {
    hide EscapeByte, Escape, Fit, Wrote;
    end, room := at, size;
    if !empty {
      dest[end] := DOT;
      end, room := end + 1, room - 1;
    }
    if room == 0 {
      return Broken, end, room;
    }
    ghost var dotted, was := dest[..end], dest[..];
    assert dotted == text + Dotted(Sink(text, size, empty));
    var ok, next, left := EscapeLabel(l, dest, end, room);
    assert dest[..next] == dotted + Fit(l, room) by {
      WroteBehind(dest[..], was, end, room, Fit(l, room));
    }
    return if ok then Fitted else Cut, next, left;
  }

  lemma WroteBehind(now: seq<byte>, was: seq<byte>, at: nat, room: nat, text: CString)
    requires Wrote(now, was, at, room, text)
    ensures now[..at + |text|] == was[..at] + text
  {
    assert now[..at + |text|] == now[..at] + now[at..at + |text|];
  }

  // ---------------------------------------------------------------- normalisation

  // How avahi_normalize_name ends: no result, a failed assertion, or a text left in the
  // buffer, whose end may lack its terminator.
  datatype Normalized = Null | Stopped | Left(text: CString, ended: bool)

  function NormalizeFrom(t: CString, k: Sink, ended: bool): Normalized
    requires 0 < k.room
    decreases |t|
  {
    if t == [] then Left(k.text, ended) else
      match Unescape(t, LABEL_MAX)
      case Nothing => Null
      case Label(l, rest) =>
        if l == [] then if rest == [] && k.empty then Left(k.text, ended) else Null
        else
          match Add(k, l)
          case Aborted => Stopped
          case Short(more) => NormalizeFrom(rest, more, ended && more.text == [])
          case Whole(more) => NormalizeFrom(rest, more, true)
  }

  function Normalize(t: CString, size: nat): Normalized
    requires 0 < size
  {
    NormalizeFrom(t, Sink([], size, true), true)
  }

  // The text that labels add to a buffer.
  function Rest(k: Sink, ls: seq<CString>): CString {
    if k.empty then Normal(ls) else Behind(ls)
  }

  lemma RestSplits(k: Sink, ls: seq<CString>)
    requires ls != []
    ensures k.text + Rest(k, ls) == k.text + Dotted(k) + Escape(ls[0]) + Behind(ls[1..])
    ensures |Rest(k, ls)| == |Dotted(k)| + |Escape(ls[0])| + |Behind(ls[1..])|
  {
    assert Rest(k, ls) == Dotted(k) + (Escape(ls[0]) + Behind(ls[1..])) by {
      hide Escape;
      assert Normal(ls) == Escape(ls[0]) + Behind(ls[1..]);
      assert Behind(ls) == [DOT] + Normal(ls);
    }
    hide Rest, Escape, Behind, Normal, Dotted;
    Associative(Dotted(k), Escape(ls[0]), Behind(ls[1..]));
    Associative(k.text, Dotted(k) + Escape(ls[0]), Behind(ls[1..]));
    Associative(k.text, Dotted(k), Escape(ls[0]));
  }

  lemma {:induction false} NormalizeFromWrites(t: CString, k: Sink, ended: bool)
    requires 0 < k.room
    requires LabelsOf(t).Labels?
    ensures !NormalizeFrom(t, k, ended).Null?
    ensures |Rest(k, LabelsOf(t).list)| < k.room ==>
      NormalizeFrom(t, k, ended) == Left(k.text + Rest(k, LabelsOf(t).list), ended || t != [])
    decreases |t|
  {
    var ls := LabelsOf(t).list;
    if t == [] {
      assert k.text + [] == k.text;
    } else {
      var l, rest := Unescape(t, LABEL_MAX).bytes, Unescape(t, LABEL_MAX).rest;
      assert ls[1..] == LabelsOf(rest).list;
      var a := Add(k, l);
      if !a.Aborted? {
        NormalizeFromWrites(rest, a.sink, if a.Whole? then true else ended && a.sink.text == []);
        RestSplits(k, ls);
      }
    }
  }

  lemma {:induction false} NormalizeFromRefuses(t: CString, k: Sink, ended: bool)
    requires 0 < k.room
    requires LabelsOf(t).Unreadable? && !(k.empty && t == [DOT])
    ensures !NormalizeFrom(t, k, ended).Left?
    decreases |t|
  {
    var r := Unescape(t, LABEL_MAX);
    if r.Label? && r.bytes != [] && !Add(k, r.bytes).Aborted? {
      var a := Add(k, r.bytes);
      NormalizeFromRefuses(r.rest, a.sink, if a.Whole? then true else ended && a.sink.text == []);
    }
  }

  lemma {:induction false} NormalizeFromIsBounded(t: CString, k: Sink, ended: bool)
    requires 0 < k.room
    ensures NormalizeFrom(t, k, ended).Left? ==> |NormalizeFrom(t, k, ended).text| < |k.text| + k.room
    decreases |t|
  {
    var r := Unescape(t, LABEL_MAX);
    if t != [] && r.Label? && r.bytes != [] && !Add(k, r.bytes).Aborted? {
      var a := Add(k, r.bytes);
      NormalizeFromIsBounded(r.rest, a.sink, if a.Whole? then true else ended && a.sink.text == []);
    }
  }

  lemma {:induction false} NormalizeFromShortens(t: CString, k: Sink, ended: bool)
    requires 0 < k.room && LabelsOf(t).Labels?
    ensures NormalizeFrom(t, k, ended).Left? ==>
      |NormalizeFrom(t, k, ended).text| <= |k.text| + |Rest(k, LabelsOf(t).list)|
    decreases |t|
  {
    if t != [] {
      var r := Unescape(t, LABEL_MAX);
      var a := Add(k, r.bytes);
      assert LabelsOf(t).list[1..] == LabelsOf(r.rest).list;
      if !a.Aborted? {
        NormalizeFromShortens(r.rest, a.sink, if a.Whole? then true else ended && a.sink.text == []);
        RestSplits(k, LabelsOf(t).list);
      }
    }
  }

  lemma NormalizeShortens(t: CString, size: nat)
    requires 0 < size && NameOf(t).Labels?
    ensures Normalize(t, size).Left? ==>
      |Normalize(t, size).text| < size && |Normalize(t, size).text| <= |Normal(NameOf(t).list)|
  {
    NormalizeFromIsBounded(t, Sink([], size, true), true);
    if LabelsOf(t).Labels? {
      NormalizeFromShortens(t, Sink([], size, true), true);
    }
  }

  // The result of normalisation is the normal form exactly when that fits the buffer;
  // a text that is no name never gives a result.
  lemma NormalizeIsExact(t: CString, size: nat)
    requires 0 < size
    ensures NameOf(t).Unreadable? ==> !Normalize(t, size).Left?
    ensures NameOf(t).Labels? ==> !Normalize(t, size).Null?
    ensures NameOf(t).Labels? ==>
      (Normalize(t, size) == Left(Normal(NameOf(t).list), true) <==> |Normal(NameOf(t).list)| < size)
  {
    if LabelsOf(t).Labels? {
      NormalizeFromWrites(t, Sink([], size, true), true);
      NormalizeFromIsBounded(t, Sink([], size, true), true);
    } else if t != [DOT] {
      NormalizeFromRefuses(t, Sink([], size, true), true);
    }
  }

  // What is left of some room once labels were written into it, each behind its dot and as
  // far as it fits; nothing is left once a dot took the last byte.
  function RoomLeft(room: nat, empty: bool, ls: seq<CString>): nat {
    if ls == [] then room else
      var behind := if empty || room == 0 then room else room - 1;
      if behind == 0 then 0 else RoomLeft(behind - |Fit(ls[0], behind)|, false, ls[1..])
  }

  // One byte is left before some label that follows another.
  ghost predicate Jams(room: nat, empty: bool, ls: seq<CString>) {
    exists k: nat :: JamsAt(room, empty, ls, k)
  }

  ghost predicate JamsAt(room: nat, empty: bool, ls: seq<CString>, k: nat) {
    k < |ls| && (empty ==> 0 < k) && RoomLeft(room, empty, ls[..k]) == 1
  }

  lemma JamsAtNext(k: Sink, ls: seq<CString>, i: nat)
    requires 0 < k.room && ls != [] && !Add(k, ls[0]).Aborted?
    ensures JamsAt(k.room, k.empty, ls, i + 1) <==> JamsAt(Add(k, ls[0]).sink.room, false, ls[1..], i)
    ensures !JamsAt(k.room, k.empty, ls, 0)
  {
    if i + 1 < |ls| {
      assert ls[..i + 1][1..] == ls[1..][..i];
      assert ls[..i + 1][0] == ls[0];
    }
    assert ls[..0] == [];
  }

  lemma JamsNow(k: Sink, ls: seq<CString>)
    requires 0 < k.room && ls != [] && Add(k, ls[0]).Aborted?
    ensures JamsAt(k.room, k.empty, ls, 0)
  {
    assert ls[..0] == [];
  }

  lemma {:induction false} NormalizeFromStops(t: CString, k: Sink, ended: bool)
    requires 0 < k.room
    ensures NormalizeFrom(t, k, ended).Stopped? <==> Jams(k.room, k.empty, Leading(t))
    decreases |t|
  {
    hide Add, RoomLeft, JamsAt, Jams, Unescape;
    var r := Unescape(t, LABEL_MAX);
    NoJam(k.room, k.empty);
    if t != [] && r.Label? && r.bytes != [] {
      var a, ls := Add(k, r.bytes), Leading(t);
      assert ls[0] == r.bytes && ls[1..] == Leading(r.rest);
      if a.Aborted? {
        JamsNow(k, ls);
        JamsIf(k.room, k.empty, ls, 0);
      } else {
        NormalizeFromStops(r.rest, a.sink, if a.Whole? then true else ended && a.sink.text == []);
        JamsNext(k, ls);
      }
    }
  }

  lemma NoJam(room: nat, empty: bool)
    ensures !Jams(room, empty, [])
  {
  }

  lemma JamsIf(room: nat, empty: bool, ls: seq<CString>, k: nat)
    requires JamsAt(room, empty, ls, k)
    ensures Jams(room, empty, ls)
  {
  }

  lemma JamsNext(k: Sink, ls: seq<CString>)
    requires 0 < k.room && ls != [] && !Add(k, ls[0]).Aborted?
    ensures Jams(k.room, k.empty, ls) <==> Jams(Add(k, ls[0]).sink.room, false, ls[1..])
  {
    hide JamsAt, Add;
    var room := Add(k, ls[0]).sink.room;
    if Jams(k.room, k.empty, ls) {
      var i: nat :| JamsAt(k.room, k.empty, ls, i);
      JamsAtNext(k, ls, if i == 0 then 0 else i - 1);
      JamsIf(room, false, ls[1..], i - 1);
    }
    if Jams(room, false, ls[1..]) {
      var i: nat :| JamsAt(room, false, ls[1..], i);
      JamsAtNext(k, ls, i);
      JamsIf(k.room, k.empty, ls, i + 1);
    }
  }

  // The assertion fails exactly if the labels come to a point where one byte is left and
  // another label follows.
  lemma NormalizeStops(t: CString, size: nat)
    requires 0 < size
    ensures Normalize(t, size).Stopped? <==>
      exists k :: 0 < k < |Leading(t)| && RoomLeft(size, true, Leading(t)[..k]) == 1
  {
    NormalizeFromStops(t, Sink([], size, true), true);
    hide NormalizeFrom, Leading, RoomLeft;
    var ls := Leading(t);
    if Jams(size, true, ls) {
      var k: nat :| JamsAt(size, true, ls, k);
      assert 0 < k < |ls| && RoomLeft(size, true, ls[..k]) == 1;
    }
    if k :| 0 < k < |ls| && RoomLeft(size, true, ls[..k]) == 1 {
      assert JamsAt(size, true, ls, k);
    }
  }

  // The last label fits whole, so that a terminator comes behind it.
  ghost predicate LastFits(room: nat, empty: bool, ls: seq<CString>) {
    ls == [] ||
    (if empty && |ls| == 1 then 0 else 1) + |Escape(ls[|ls| - 1])| < RoomLeft(room, empty, ls[..|ls| - 1])
  }

  lemma RoomStep(k: Sink, ls: seq<CString>)
    requires ls != [] && |Dotted(k)| < k.room
    ensures var behind := k.room - |Dotted(k)|;
      RoomLeft(k.room, k.empty, ls) == RoomLeft(behind - |Fit(ls[0], behind)|, false, ls[1..])
  {
    hide Escape, Fit, EscapeByte;
    var behind := if k.empty || k.room == 0 then k.room else k.room - 1;
    assert behind == k.room - |Dotted(k)| && behind != 0;
    hide Dotted;
  }

  lemma AddTakes(k: Sink, l: CString)
    requires 0 < k.room && !Add(k, l).Aborted?
    ensures |Dotted(k)| < k.room
    ensures Add(k, l).sink.room == k.room - |Dotted(k)| - |Fit(l, k.room - |Dotted(k)|)|
  {
    hide Escape, Fit;
  }

  lemma RoomNext(k: Sink, ls: seq<CString>)
    requires 0 < k.room && ls != [] && !Add(k, ls[0]).Aborted?
    ensures RoomLeft(k.room, k.empty, ls) == RoomLeft(Add(k, ls[0]).sink.room, false, ls[1..])
  {
    hide *;
    AddTakes(k, ls[0]);
    RoomStep(k, ls);
  }

  lemma LastFitsNext(k: Sink, ls: seq<CString>)
    requires 0 < k.room && ls != [] && !Add(k, ls[0]).Aborted?
    ensures LastFits(k.room, k.empty, ls) <==>
      if |ls| == 1 then Add(k, ls[0]).Whole? else LastFits(Add(k, ls[0]).sink.room, false, ls[1..])
  {
    NoLabels(k);
    if |ls| == 1 {
      hide RoomLeft, Escape;
      assert ls[..0] == [];
    } else {
      hide RoomLeft, Escape, Add;
      var front := ls[..|ls| - 1];
      assert front[1..] == ls[1..][..|ls| - 2] && front[0] == ls[0];
      RoomNext(k, front);
    }
  }

  // How long the text gets, and whether it gets its terminator.
  lemma {:induction false} NormalizeFromEnds(t: CString, k: Sink, ended: bool)
    requires 0 < k.room
    ensures var n, ls := NormalizeFrom(t, k, ended), Leading(t);
      n.Left? ==>
        && |n.text| == |k.text| + k.room - RoomLeft(k.room, k.empty, ls)
        && (ls != [] ==> k.empty || |n.text| > |k.text|)
        && (n.ended <==> if ls == [] then ended else LastFits(k.room, k.empty, ls) || (ended && n.text == []))
    decreases |t|
  {
    hide RoomLeft, LastFits, Add, Unescape;
    var r := Unescape(t, LABEL_MAX);
    NoLabels(k);
    if t != [] && r.Label? && r.bytes != [] {
      var a, ls := Add(k, r.bytes), Leading(t);
      assert ls[0] == r.bytes && ls[1..] == Leading(r.rest);
      if !a.Aborted? {
        var next := if a.Whole? then true else ended && a.sink.text == [];
        NormalizeFromEnds(r.rest, a.sink, next);
        RoomNext(k, ls);
        LastFitsNext(k, ls);
        AddWrites(k, r.bytes);
      }
    }
  }

  lemma NoLabels(k: Sink)
    ensures RoomLeft(k.room, k.empty, []) == k.room
  {
  }

  lemma AddWrites(k: Sink, l: CString)
    requires 0 < k.room && l != [] && !Add(k, l).Aborted?
    ensures var a := Add(k, l);
      && |a.sink.text| + a.sink.room == |k.text| + k.room && !a.sink.empty
      && (!k.empty || a.Whole? ==> |a.sink.text| > |k.text|)
      && |a.sink.text| >= |k.text|
  {
    hide Fit, EscapeByte;
  }

  // What is left behind is terminated exactly if it is empty or its last label fitted.
  lemma NormalizeEnds(t: CString, size: nat)
    requires 0 < size
    ensures var n := Normalize(t, size);
      n.Left? ==>
        |n.text| == size - RoomLeft(size, true, Leading(t)) &&
        (n.ended <==> n.text == [] || LastFits(size, true, Leading(t)))
  {
    NormalizeFromEnds(t, Sink([], size, true), true);
    hide NormalizeFrom, LastFits, Leading;
    NoLabels(Sink([], size, true));
  }

  // A buffer of some size is full but for one byte before the last label came.
  ghost predicate FillsUp(ls: seq<CString>, size: nat) {
    exists k :: 0 < k < |ls| && |Normal(ls[..k])| + 1 == size
  }

  lemma {:induction false} RoomBehindNormal(k: Sink, ls: seq<CString>)
    requires |Rest(k, ls)| < k.room
    ensures RoomLeft(k.room, k.empty, ls) == k.room - |Rest(k, ls)|
    decreases |ls|
  {
    if ls != [] {
      RestSplits(k, ls);
      AddRoom(k, ls);
      hide *;
      var more := Add(k, ls[0]).sink;
      RestBehind(more, ls[1..]);
      RoomBehindNormal(more, ls[1..]);
    } else {
      hide RoomLeft;
      RoomOfNothing(k);
    }
  }

  lemma RoomOfNothing(k: Sink)
    ensures RoomLeft(k.room, k.empty, []) == k.room && Rest(k, []) == []
  {
  }

  lemma RestBehind(k: Sink, ls: seq<CString>)
    requires !k.empty
    ensures Rest(k, ls) == Behind(ls)
  {
  }

  lemma AddRoom(k: Sink, ls: seq<CString>)
    requires ls != [] && |Dotted(k)| + |Escape(ls[0])| < k.room
    ensures var a := Add(k, ls[0]);
      a.Whole? && !a.sink.empty && a.sink.room == k.room - |Dotted(k)| - |Escape(ls[0])|
    ensures RoomLeft(k.room, k.empty, ls) == RoomLeft(Add(k, ls[0]).sink.room, false, ls[1..])
  {
    hide *;
    AddWhole(k, ls[0]);
    RoomStep(k, ls);
  }

  lemma AddWhole(k: Sink, l: CString)
    requires |Dotted(k)| + |Escape(l)| < k.room
    ensures var a := Add(k, l);
      a.Whole? && !a.sink.empty && a.sink.room == k.room - |Dotted(k)| - |Escape(l)|
    ensures Fit(l, k.room - |Dotted(k)|) == Escape(l)
  {
    hide Escape, Fit;
  }

  // So it fails whenever labels that fit are followed by another and fill all but a byte.
  lemma FullBufferStops(t: CString, size: nat)
    requires 0 < size && FillsUp(Leading(t), size)
    ensures Normalize(t, size) == Stopped
  {
    NormalizeStops(t, size);
    hide Normalize, Leading, RoomLeft;
    var ls := Leading(t);
    var k :| 0 < k < |ls| && |Normal(ls[..k])| + 1 == size;
    RoomBehindNormal(Sink([], size, true), ls[..k]);
  }

  lemma {:induction false} LeadingOfName(t: CString)
    requires LabelsOf(t).Labels?
    ensures Leading(t) == LabelsOf(t).list
    decreases |t|
  {
    hide Unescape;
    if t != [] {
      LeadingOfName(Unescape(t, LABEL_MAX).rest);
    }
  }

  // "a.b" in two bytes
  lemma NormalizeTripsAssertion()
    ensures Normalize([97, DOT, 98], 2) == Stopped
  {
    var ls: seq<CString> := [[97], [98]];
    LetterIsLabel(97);
    LetterIsLabel(98);
    NormalOfLetters(97, 98);
    NormalKeepsLabels(ls);
    LeadingOfName(Normal(ls));
    hide *;
    FillsUpAfter(ls, 1, 2);
    FullBufferStops(Normal(ls), 2);
  }

  lemma FillsUpAfter(ls: seq<CString>, k: nat, size: nat)
    requires 0 < k < |ls| && |Normal(ls[..k])| + 1 == size
    ensures FillsUp(ls, size)
  {
  }

  lemma NormalOfLetters(a: byte, b: byte)
    requires IsLower(a) && IsLower(b)
    ensures Normal([[a], [b]]) == [a, DOT, b] && Normal([[a], [b]][..1]) == [a]
  {
    EscapeOfLetter(a);
    EscapeOfLetter(b);
    hide Escape;
    var ls: seq<CString> := [[a], [b]];
    assert ls[1..] == [[b]] && [[b]][1..] == [] && ls[..1] == [[a]] && [[a]][1..] == [];
    assert Normal([[b]]) == [b];
    assert Behind([[b]]) == [DOT, b];
  }

  lemma EscapeOfLetter(c: byte)
    requires IsLower(c)
    ensures Escape([c]) == [c]
  {
    assert [c][1..] == [];
    assert Escape([]) == [];
    assert EscapeByte(c) == [c];
  }

  lemma LetterIsLabel(c: byte)
    requires IsLower(c)
    ensures IsLabel([c])
  {
    Utf8.AsciiIsValid([c]);
  }

  // Given room, normalising twice is normalising once, and the labels stay the same.
  lemma NormalizeIsIdempotent(t: CString, size: nat)
    requires NameOf(t).Labels? && |Normal(NameOf(t).list)| < size
    ensures var n := Normal(NameOf(t).list);
      Normalize(t, size) == Left(n, true) && Normalize(n, size) == Left(n, true) && NameOf(n) == NameOf(t)
  {
    NormalKeepsLabels(NameOf(t).list);
    NormalizeIsExact(t, size);
    NormalizeIsExact(Normal(NameOf(t).list), size);
  }

  // On a buffer that is short, bytes are lost without a word: a single space, whose escape
  // takes four, comes back as the root.
  lemma NormalizeLosesBytes()
    ensures Normalize([32], 2) == Left([], true)
  {
    UnescapeSpace();
    hide Unescape;
    assert Escape([32]) == EscapeByte(32) + [];
    assert Fit([32], 2) == [];
    assert Add(Sink([], 2, true), [32]) == Short(Sink([], 2, false));
    hide Escape, EscapeByte, Fit, Add;
  }

  lemma UnescapeSpace()
    ensures Unescape([32], LABEL_MAX) == Label([32], [])
  {
    assert Head([32]) == Literal(32, 1) && [32][1..] == [];
    assert Read([]) == Label([], []);
    assert Read([32]) == Label([32], []);
    assert Utf8.Valid([32]) by {
      assert Utf8.First([32]) == 32 && |Utf8.Encode(32)| == 1;
    }
  }

  // strlen of a buffer
  method Length(buffer: array<byte>, ghost s: CString) returns (n: nat)
    requires Holds(buffer[..], 0, s)
    ensures n == |s| && buffer[..n] == s
  {
    n := 0;
    while buffer[n] != 0
      invariant n <= |s|
      invariant buffer[|s|] == 0 && buffer[0..|s|] == s
      decreases |s| - n
    {
      n := n + 1;
    }
  }

  // Reads one label through a buffer of LABEL_MAX bytes, as every caller does.
  method NextLabel(name: CString, at: nat) returns (ok: bool, l: CString, next: nat)
    requires at <= |name|
    ensures ok <==> Unescape(name[at..], LABEL_MAX).Label?
    ensures at <= next <= |name|
    ensures ok ==> Unescape(name[at..], LABEL_MAX) == Label(l, name[next..])
  {
    var buffer := new byte[LABEL_MAX];
    ok, next := UnescapeLabel(name, at, buffer, LABEL_MAX);
    l := [];
    if ok {
      var n := Length(buffer, Unescape(name[at..], LABEL_MAX).bytes);
      l := buffer[..n];
    }
  }

  // The outcome of a normalisation, its text being what the buffer holds.
  datatype Report = NoName | AssertionFailed | Done

  predicate Reports(r: Report, n: Normalized) {
    match n
    case Null => r.NoName?
    case Stopped => r.AssertionFailed?
    case Left(_, _) => r.Done?
  }

  // avahi_normalize_name. Also tells where the text ends in the buffer and whether a
  // terminator was put there.
  method NormalizeName(s: CString, dest: array<byte>, size: nat) returns (r: Report, end: nat, ended: bool)
    requires 0 < size <= dest.Length
    modifies dest
    ensures Reports(r, Normalize(s, size))
    ensures r.Done? ==> end < size && dest[..end] == Normalize(s, size).text && ended == Normalize(s, size).ended
    ensures r.Done? && ended ==> Holds(dest[..], 0, Normalize(s, size).text)
  {
    hide Add, Unescape, Holds;
    var at, room, empty := 0, size, true;
    end, ended := 0, true;
    dest[0] := 0;
    ghost var k := Sink([], size, true);
    assert s[0..] == s;
    while at < |s|
      invariant at <= |s|
      invariant 0 < room && end + room == size
      invariant k.text == dest[..end] && k.room == room && k.empty == empty
      invariant ended ==> dest[end] == 0
      invariant Normalize(s, size) == NormalizeFrom(s[at..], k, ended)
      decreases |s| - at
    {
      var ok, l, next := NextLabel(s, at);
      if !ok {
        return NoName, end, ended;
      }
      if l == [] {
        if next == |s| && empty {
          HoldsIf(ended, dest[..], k.text);
          return Done, end, ended;
        }
        return NoName, end, ended;
      }
      ghost var a := Add(k, l);
      var o;
      o, end, room := AddLabel(l, dest, end, room, empty, k.text);
      if o.Broken? {
        return AssertionFailed, end, ended;
      }
      empty := false;
      k := a.sink;
      ended := o.Fitted? || (ended && end == 0);
      at := next;
    }
    HoldsIf(ended, dest[..], k.text);
    return Done, end, ended;
  }

  lemma HoldsIf(ended: bool, buffer: seq<byte>, text: CString)
    requires |text| < |buffer| && text == buffer[..|text|] && (ended ==> buffer[|text|] == 0)
    ensures ended ==> Holds(buffer, 0, text)
  {
  }
}
