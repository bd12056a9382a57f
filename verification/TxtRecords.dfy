/**
 The string lists of TXT records: a linked list that is reversed in place around its
 serialisation, and the wire format of section 6.1 of RFC 6763.
 */
module TxtRecords {
  import opened CStrings

  // ---------------------------------------------------------------- the list

  class Node {
    var next: Node?
    const text: seq<byte>

    constructor (next: Node?, text: seq<byte>)
      ensures this.next == next && this.text == text
    {
      this.next := next;
      this.text := text;
    }
  }

  // The nodes from a head to the end, each once.
  ghost predicate Chain(l: Node?, xs: seq<Node>)
    reads xs
  {
    && StartsAt(l, xs, 0)
    && (xs != [] ==> xs[|xs| - 1].next == null)
    && (forall i, j :: 0 <= i < |xs| && j == i + 1 && j < |xs| ==> xs[i].next == xs[j])
    && (forall i, j :: 0 <= i < j < |xs| ==> xs[i] != xs[j])
  }

  ghost predicate Within(xs: seq<Node>, nodes: set<Node>) {
    forall i :: 0 <= i < |xs| ==> xs[i] in nodes
  }

  // A pointer to a position of a list, its end included.
  ghost predicate StartsAt(l: Node?, xs: seq<Node>, i: int) {
    0 <= i <= |xs| && if i < |xs| then l == xs[i] else l == null
  }

  function Reversed<T>(s: seq<T>): (r: seq<T>)
    ensures |r| == |s|
    ensures forall i :: 0 <= i < |s| ==> r[i] == s[|s| - 1 - i]
  {
    seq(|s|, i requires 0 <= i < |s| => s[|s| - 1 - i])
  }

  function Texts(xs: seq<Node>): (ts: seq<seq<byte>>)
    ensures |ts| == |xs| && forall i :: 0 <= i < |xs| ==> ts[i] == xs[i].text
  {
    seq(|xs|, i requires 0 <= i < |xs| => xs[i].text)
  }

  // avahi_string_list_reverse
  method Reverse(head: Node?, ghost xs: seq<Node>, ghost nodes: set<Node>) returns (r: Node?)
    requires Chain(head, xs) && Within(xs, nodes)
    modifies nodes
    ensures Chain(r, Reversed(xs))
  {
    var l := head;
    r := null;
    ghost var i := 0;
    while l != null
      invariant StartsAt(l, xs, i)
      invariant if i == 0 then r == null else r == xs[i - 1] && xs[0].next == null
      invariant forall j, k :: 0 <= j < |xs| && k == j + 1 && k < i ==> xs[k].next == xs[j]
      invariant forall j, k :: i <= j < |xs| && k == j + 1 && k < |xs| ==> xs[j].next == xs[k]
      invariant i < |xs| ==> xs[|xs| - 1].next == null
      decreases |xs| - i
    {
      var n := l.next;
      l.next := r;
      r := l;
      l := n;
      i := i + 1;
    }
  }

  // ---------------------------------------------------------------- the wire format

  function Min(a: int, b: int): int {
    if a < b then a else b
  }

  type Text = seq<byte>

  predicate Proper(cs: seq<Text>) {
    forall i :: 0 <= i < |cs| ==> 0 < |cs[i]| < 256
  }

  // The strings a record carries: none empty, each cut to 255 bytes.
  function Carried(ts: seq<seq<byte>>): (cs: seq<Text>)
    ensures Proper(cs)
  {
    if ts == [] then []
    else if ts[0] == [] then Carried(ts[1..])
    else [ts[0][..Min(|ts[0]|, 255)]] + Carried(ts[1..])
  }

  // As many of them as fit, the last one cut short if need be.
  function Fitting(cs: seq<Text>, room: nat): (fs: seq<Text>)
    requires Proper(cs)
    ensures Proper(fs)
  {
    if cs == [] || room <= 1 then []
    else
      var t := cs[0][..Min(|cs[0]|, room - 1)];
      [t] + Fitting(cs[1..], room - 1 - |t|)
  }

  // On the wire a string follows its length.
  function Wire(cs: seq<Text>): seq<byte> {
    if cs == [] then [] else [|cs[0]| % 256] + cs[0] + Wire(cs[1..])
  }

  // No string at all is sent as one empty string.
  function Record(cs: seq<Text>): seq<byte> {
    if cs == [] then [0] else Wire(cs)
  }

  datatype Parsing = Overflow | Strings(list: seq<Text>)

  function Parse(d: seq<byte>): Parsing
    decreases |d|
  {
    if d == [] then Strings([])
    else if d[0] > |d| - 1 then Overflow
    else Ahead(if d[0] == 0 then [] else [d[1..1 + d[0]]], Parse(d[1 + d[0]..]))
  }

  function Ahead(ts: seq<Text>, p: Parsing): Parsing {
    if p.Overflow? then Overflow else Strings(ts + p.list)
  }

  // Of every string that is not empty the first 255 bytes are carried, in order.
  lemma {:induction false} CarriedIs(ts: seq<seq<byte>>)
    requires forall i :: 0 <= i < |ts| ==> ts[i] != []
    ensures |Carried(ts)| == |ts|
    ensures forall i :: 0 <= i < |ts| ==> Carried(ts)[i] == if |ts[i]| <= 255 then ts[i] else ts[i][..255]
  {
    if ts != [] {
      CarriedIs(ts[1..]);
      assert ts[0][..|ts[0]|] == ts[0];
    }
  }

  // Section 6.1 of RFC 6763: each string behind a byte with its length, and one byte for none
  lemma RecordLooksSo()
    ensures Record([]) == [0] && Record([[97, 61, 49], [98]]) == [3, 97, 61, 49, 1, 98]
  {
    var cs: seq<Text> := [[97, 61, 49], [98]];
    assert cs[1..] == [[98]] && [[98]][1..] == [];
    assert Wire([[98]]) == [1, 98];
  }

  // What is written is parsed back.
  lemma {:induction false} ParseOfWire(cs: seq<Text>)
    requires Proper(cs)
    ensures Parse(Wire(cs)) == Strings(cs)
  {
    if cs != [] {
      var d := Wire(cs);
      assert d[1..1 + d[0]] == cs[0] && d[1 + d[0]..] == Wire(cs[1..]);
      ParseOfWire(cs[1..]);
      assert cs == [cs[0]] + cs[1..];
    }
  }

  lemma ParseOfRecord(cs: seq<Text>)
    requires Proper(cs)
    ensures Parse(Record(cs)) == Strings(cs)
  {
    ParseOfWire(cs);
    if cs == [] {
      assert [0 as byte][1..] == [];
    }
  }

  lemma FittingStep(cs: seq<Text>, room: nat)
    requires Proper(cs) && cs != [] && room > 1
    ensures var t := cs[0][..Min(|cs[0]|, room - 1)]; var fs := Fitting(cs, room);
      fs != [] && fs[0] == t && fs[1..] == Fitting(cs[1..], room - 1 - |t|)
  {
  }

  // Never too long
  lemma {:induction false} FittingFits(cs: seq<Text>, room: nat)
    requires Proper(cs)
    ensures |Wire(Fitting(cs, room))| <= room
    decreases |cs|
  {
    if cs != [] && room > 1 {
      var t := cs[0][..Min(|cs[0]|, room - 1)];
      FittingStep(cs, room);
      FittingFits(cs[1..], room - 1 - |t|);
    }
  }

  // A start of what there is, but for the last string, which may be cut
  lemma {:induction false} FittingStarts(cs: seq<Text>, room: nat)
    requires Proper(cs)
    ensures var fs := Fitting(cs, room);
      && |fs| <= |cs|
      && (forall i :: 0 <= i < |fs| - 1 ==> fs[i] == cs[i])
      && (fs != [] ==> fs[|fs| - 1] <= cs[|fs| - 1])
    decreases |cs|
  {
    if cs != [] && room > 1 {
      var t := cs[0][..Min(|cs[0]|, room - 1)];
      FittingStep(cs, room);
      FittingStarts(cs[1..], room - 1 - |t|);
      var fs := Fitting(cs, room);
      if |fs| > 1 {
        assert room - 1 - |t| > 1;
        assert t == cs[0];
      }
      hide Fitting;
      forall i | 0 <= i < |fs| - 1 ensures fs[i] == cs[i] {
        if i > 0 {
          assert fs[i] == fs[1..][i - 1] && cs[i] == cs[1..][i - 1];
        }
      }
    }
  }

  lemma WireHead(cs: seq<Text>)
    requires cs != []
    ensures |Wire(cs)| == 1 + |cs[0]| + |Wire(cs[1..])|
  {
  }

  lemma SameHeadAndTail(a: seq<Text>, b: seq<Text>)
    requires a != [] && b != []
    ensures a == b <==> a[0] == b[0] && a[1..] == b[1..]
  {
    assert a == [a[0]] + a[1..] && b == [b[0]] + b[1..];
  }

  // All of it exactly when there is room
  lemma {:induction false} FittingIsWhole(cs: seq<Text>, room: nat)
    requires Proper(cs)
    ensures |Wire(cs)| <= room <==> Fitting(cs, room) == cs
    decreases |cs|
  {
    if cs == [] {
    } else if room <= 1 {
      WireHead(cs);
    } else {
      var t := cs[0][..Min(|cs[0]|, room - 1)];
      assert t == cs[0] <==> |cs[0]| <= room - 1;
      assert |t| <= room - 1 && Proper(cs[1..]);
      hide *;
      FittingStep(cs, room);
      FittingIsWhole(cs[1..], room - 1 - |t|);
      SameHeadAndTail(Fitting(cs, room), cs);
      WireHead(cs);
    }
  }

  // The whole list goes through exactly when there is the room that the sizing pass asks for.
  // In less room, if there is any, the output still parses, into a start of the list whose
  // last string may be cut.
  lemma TxtRoundTrip(ts: seq<seq<byte>>, room: nat)
    requires 0 < room
    ensures var cs := Carried(ts); var fs := Fitting(cs, room);
      && Parse(Record(fs)) == Strings(fs) && |Record(fs)| <= room
      && (|Record(cs)| <= room <==> fs == cs)
      && |fs| <= |cs| && (forall i :: 0 <= i < |fs| - 1 ==> fs[i] == cs[i])
      && (fs != [] ==> fs[|fs| - 1] <= cs[|fs| - 1])
  {
    hide Fitting, Wire, Parse, Carried;
    var cs := Carried(ts);
    var fs := Fitting(cs, room);
    FittingFits(cs, room);
    FittingStarts(cs, room);
    FittingIsWhole(cs, room);
    ParseOfRecord(fs);
  }

  // ---------------------------------------------------------------- the sizing pass

  function Size(t: seq<byte>): nat {
    if t == [] then 0 else 1 + Min(|t|, 255)
  }

  function Total(ts: seq<seq<byte>>): nat {
    if ts == [] then 0 else Size(ts[0]) + Total(ts[1..])
  }

  lemma {:induction false} TotalConcat(a: seq<seq<byte>>, b: seq<seq<byte>>)
    ensures Total(a + b) == Total(a) + Total(b)
  {
    if a == [] {
      assert a + b == b;
    } else {
      TotalConcat(a[1..], b);
      assert (a + b)[1..] == a[1..] + b;
    }
  }

  lemma {:induction false} TotalReversed(ts: seq<seq<byte>>)
    ensures Total(Reversed(ts)) == Total(ts)
  {
    if ts != [] {
      TotalReversed(ts[1..]);
      TotalConcat(Reversed(ts[1..]), [ts[0]]);
      assert Reversed(ts) == Reversed(ts[1..]) + [ts[0]];
      assert Total([ts[0]]) == Size(ts[0]) + Total([]);
    }
  }

  lemma {:induction false} TotalIsWire(ts: seq<seq<byte>>)
    ensures |Wire(Carried(ts))| == Total(ts)
  {
    if ts != [] {
      TotalIsWire(ts[1..]);
      if ts[0] != [] {
        assert Carried(ts)[1..] == Carried(ts[1..]);
      }
    }
  }

  // ---------------------------------------------------------------- the routines

  // What a list is sent as: its head was added last.
  function Sent(xs: seq<Node>): (cs: seq<Text>)
    ensures Proper(cs)
  {
    Carried(Texts(Reversed(xs)))
  }

  // avahi_string_list_serialize without a buffer: the size to ask for
  method SerializedSize(l: Node?, ghost xs: seq<Node>) returns (used: nat)
    requires Chain(l, xs)
    ensures used == |Record(Sent(xs))|
  {
    used := 0;
    var n := l;
    ghost var i, ts := 0, Texts(xs);
    assert ts[0..] == ts;
    while n != null
      invariant 0 <= i <= |xs| && StartsAt(n, xs, i)
      invariant Total(ts) == used + Total(ts[i..])
      decreases |xs| - i
    {
      assert ts[i..][1..] == ts[i + 1..];
      var k := |n.text|;
      if k != 0 {
        used := used + 1 + if k > 255 then 255 else k;
      }
      n := n.next;
      i := i + 1;
    }
    assert Texts(Reversed(xs)) == Reversed(ts);
    TotalReversed(ts);
    TotalIsWire(Reversed(ts));
    if used == 0 {
      used := 1;
    }
  }

  // avahi_string_list_serialize into a buffer: the list is turned around, written as far as
  // it fits, and turned back.
  method Serialize(l: Node?, ghost xs: seq<Node>, ghost nodes: set<Node>, data: array<byte>, size: nat)
    returns (used: nat)
    requires Chain(l, xs) && Within(xs, nodes) && size <= data.Length
    modifies nodes, data
    ensures Chain(l, xs)
    ensures used <= size && forall j :: used <= j < data.Length ==> data[j] == old(data[j])
    ensures size > 0 ==> data[..used] == Record(Fitting(Sent(xs), size))
  {
    used := WriteReversed(l, xs, nodes, data, size);
    SentIsOut(xs, size);
    hide Chain, Out, Reversed, Texts, Record, Sent;
    if used == 0 && size > 0 {
      data[0] := 0;
      used := 1;
    }
  }

  method WriteReversed(l: Node?, ghost xs: seq<Node>, ghost nodes: set<Node>, data: array<byte>, size: nat)
    returns (used: nat)
    requires Chain(l, xs) && Within(xs, nodes) && size <= data.Length
    modifies nodes, data
    ensures Chain(l, xs)
    ensures used <= size && data[..used] == Out(Texts(Reversed(xs)), size)
    ensures forall j :: used <= j < data.Length ==> data[j] == old(data[j])
  {
    ReversedTwice(xs);
    HeadOf(l, xs);
    assert Within(Reversed(xs), nodes);
    hide Chain, Out, Reversed, Texts, StartsAt, Within;
    var r := Reverse(l, xs, nodes);
    used := WriteList(r, Reversed(xs), data, size);
    var back := Reverse(r, Reversed(xs), nodes);
    HeadOf(back, xs);
    SameHead(l, back, xs);
  }

  lemma ReversedTwice<T>(s: seq<T>)
    ensures Reversed(Reversed(s)) == s
  {
  }

  lemma HeadOf(l: Node?, xs: seq<Node>)
    requires Chain(l, xs)
    ensures StartsAt(l, xs, 0)
  {
  }

  lemma SameHead(l: Node?, k: Node?, xs: seq<Node>)
    requires StartsAt(l, xs, 0) && StartsAt(k, xs, 0)
    ensures l == k
  {
  }

  lemma NextOf(l: Node?, xs: seq<Node>, i: nat)
    requires Chain(l, xs) && i < |xs|
    ensures StartsAt(xs[i].next, xs, i + 1)
  {
    if i + 1 < |xs| {
      var j := i + 1;
      assert xs[i].next == xs[j];
    }
  }

  lemma SentIsOut(xs: seq<Node>, room: nat)
    ensures var o := Out(Texts(Reversed(xs)), room);
      |o| <= room && Record(Fitting(Sent(xs), room)) == if o == [] then [0] else o
  {
    FittingFits(Sent(xs), room);
  }

  // What the writing loop puts into some room
  function Out(ts: seq<seq<byte>>, room: nat): seq<byte> {
    Wire(Fitting(Carried(ts), room))
  }

  // What one string adds: nothing if empty, else what fits of its first 255 bytes.
  function Piece(t: seq<byte>, room: nat): (p: seq<byte>)
    requires room > 1
    ensures |p| <= room
  {
    if t == [] then [] else
      var u := t[..Min(Min(|t|, 255), room - 1)];
      [|u| % 256] + u
  }

  // What the strings from a position on add.
  function OutFrom(ts: seq<seq<byte>>, i: int, room: int): seq<byte> {
    if 0 <= i <= |ts| && 0 <= room then Out(ts[i..], room) else []
  }

  // The buffer while the strings from a position on are still to come.
  ghost predicate Filling(now: seq<byte>, was: seq<byte>, used: int, room: int, whole: seq<byte>,
                          ts: seq<seq<byte>>, i: int)
  {
    && |now| == |was| && 0 <= used && 0 <= room && used + room <= |was|
    && whole == now[..used] + OutFrom(ts, i, room)
    && forall j :: used <= j < |was| ==> now[j] == was[j]
  }

  // The writing loop
  method WriteList(l: Node?, ghost rs: seq<Node>, data: array<byte>, size: nat) returns (used: nat)
    requires Chain(l, rs) && size <= data.Length
    modifies data
    ensures used <= size
    ensures data[..used] == Out(Texts(rs), size) && forall j :: used <= j < data.Length ==> data[j] == old(data[j])
  {
    hide *;
    ghost var i, ts, was := 0, Texts(rs), data[..];
    used := 0;
    var n, room := l, size;
    HeadOf(l, rs);
    StartFilling(was, size, ts);
    while room > 1 && n != null
      invariant StartsAt(n, rs, i)
      invariant 0 <= used && used + room == size
      invariant Filling(data[..], was, used, room, Out(ts, size), ts, i)
      decreases |rs| - i
    {
      AtNode(n, rs, i);
      NextOf(l, rs, i);
      var k := WriteText(data, used, n.text, room, was, Out(ts, size), ts, i);
      used, room := used + k, room - k;
      n := n.next;
      i := i + 1;
    }
    AtNode(n, rs, i);
    EndFilling(data[..], was, used, room, Out(ts, size), ts, i);
  }

  lemma StartFilling(was: seq<byte>, size: nat, ts: seq<seq<byte>>)
    requires size <= |was|
    ensures Filling(was, was, 0, size, Out(ts, size), ts, 0)
  {
    assert ts[0..] == ts;
  }

  lemma EndFilling(now: seq<byte>, was: seq<byte>, used: int, room: int, whole: seq<byte>, ts: seq<seq<byte>>, i: int)
    requires Filling(now, was, used, room, whole, ts, i)
    requires i == |ts| || (0 <= i < |ts| && room <= 1)
    ensures |now| == |was| && 0 <= used <= |was| && now[..used] == whole
    ensures forall j :: used <= j < |was| ==> now[j] == was[j]
  {
  }

  lemma AtNode(n: Node?, xs: seq<Node>, i: int)
    requires StartsAt(n, xs, i)
    ensures 0 <= i <= |xs| && (n == null <==> i == |xs|) && (i < |xs| ==> n == xs[i])
  {
  }

  lemma WireStep(ts: seq<seq<byte>>, i: nat, room: nat, written: seq<byte>)
    requires i < |ts| && room > 1
    ensures written + OutFrom(ts, i, room)
      == written + Piece(ts[i], room) + OutFrom(ts, i + 1, room - |Piece(ts[i], room)|)
  {
    assert ts[i..][1..] == ts[i + 1..];
    if ts[i] == [] {
      assert written + [] == written;
    } else {
      var c := ts[i][..Min(|ts[i]|, 255)];
      var t := c[..Min(|c|, room - 1)];
      assert t == ts[i][..Min(Min(|ts[i]|, 255), room - 1)];
      assert Carried(ts[i..])[1..] == Carried(ts[i + 1..]);
      var fs := Fitting(Carried(ts[i..]), room);
      assert fs[0] == t && fs[1..] == Fitting(Carried(ts[i + 1..]), room - 1 - |t|);
      AssociativeBytes(written, [|t| % 256] + t, Wire(fs[1..]));
    }
  }

  // The body of the loop
  method WriteText(data: array<byte>, used: nat, t: seq<byte>, room: nat,
                   ghost was: seq<byte>, ghost whole: seq<byte>, ghost ts: seq<seq<byte>>, ghost i: nat) returns (k: nat)
    requires i < |ts| && t == ts[i] && room > 1
    requires Filling(data[..], was, used, room, whole, ts, i)
    modifies data
    ensures k <= room
    ensures Filling(data[..], was, used + k, room - k, whole, ts, i + 1)
  {
    hide *;
    ghost var before := data[..];
    FillingBounds(before, was, used, room, whole, ts, i);
    k := |t|;
    if k == 0 {
      FillingSkip(before, was, used, room, whole, ts, i);
      return;
    }
    if k > 255 {
      k := 255;
    }
    if k > room - 1 {
      k := room - 1;
    }
    FillingText(before, was, used, room, whole, ts, i, k);
    var c: byte := k % 256;
    data[used] := c;
    assert data[..] == before[used := c];
    CopyBytes(data, used + 1, t[..k]);
    k := 1 + k;
  }

  lemma FillingBounds(now: seq<byte>, was: seq<byte>, used: nat, room: nat, whole: seq<byte>, ts: seq<seq<byte>>, i: nat)
    requires Filling(now, was, used, room, whole, ts, i)
    ensures used + room <= |now|
  {
  }

  lemma FillingSkip(now: seq<byte>, was: seq<byte>, used: nat, room: nat, whole: seq<byte>, ts: seq<seq<byte>>, i: nat)
    requires Filling(now, was, used, room, whole, ts, i) && i < |ts| && room > 1 && ts[i] == []
    ensures Filling(now, was, used, room, whole, ts, i + 1)
  {
    WireStep(ts, i, room, now[..used]);
    hide OutFrom;
    assert now[..used] + [] == now[..used];
  }

  lemma FillingText(now: seq<byte>, was: seq<byte>, used: nat, room: nat, whole: seq<byte>,
                    ts: seq<seq<byte>>, i: nat, k: nat)
    requires Filling(now, was, used, room, whole, ts, i) && i < |ts| && room > 1 && ts[i] != []
    requires k == var m := if |ts[i]| > 255 then 255 else |ts[i]|; if m > room - 1 then room - 1 else m
    ensures used + 1 + k <= |now|
    ensures Filling(Spliced(now[used := k % 256], used + 1, ts[i][..k]), was, used + 1 + k, room - 1 - k, whole, ts, i + 1)
  {
    hide *;
    PieceIs(ts[i], room, k);
    FillingBounds(now, was, used, room, whole, ts, i);
    FillingStep(now, was, used, room, whole, ts, i);
    SplicedTwice(now, used, k % 256, ts[i][..k]);
  }

  lemma PieceIs(t: seq<byte>, room: nat, k: nat)
    requires t != [] && room > 1
    requires k == var m := if |t| > 255 then 255 else |t|; if m > room - 1 then room - 1 else m
    ensures Piece(t, room) == [k % 256] + t[..k] && 1 + k == |Piece(t, room)|
  {
  }

  lemma SplicedTwice(s: seq<byte>, at: nat, c: byte, t: seq<byte>)
    requires at + 1 + |t| <= |s|
    ensures Spliced(s[at := c], at + 1, t) == Spliced(s, at, [c] + t)
  {
    assert s[at := c][..at + 1] == s[..at] + [c];
    AssociativeBytes(s[..at], [c], t);
  }

  function Spliced(s: seq<byte>, at: nat, t: seq<byte>): (r: seq<byte>)
    requires at + |t| <= |s|
    ensures |r| == |s|
  {
    s[..at] + t + s[at + |t|..]
  }

  lemma FillingStep(now: seq<byte>, was: seq<byte>, used: nat, room: nat, whole: seq<byte>, ts: seq<seq<byte>>, i: nat)
    requires Filling(now, was, used, room, whole, ts, i) && i < |ts| && room > 1
    ensures |now| == |was| && used + room <= |now|
    ensures var p := Piece(ts[i], room);
      Filling(Spliced(now, used, p), was, used + |p|, room - |p|, whole, ts, i + 1)
  {
    WireStep(ts, i, room, now[..used]);
    hide Piece, OutFrom;
    var p := Piece(ts[i], room);
    var after := Spliced(now, used, p);
    assert after[..used + |p|] == now[..used] + p;
  }

  lemma AssociativeBytes(a: seq<byte>, b: seq<byte>, c: seq<byte>)
    ensures a + (b + c) == a + b + c
  {
  }

  // memcpy
  method CopyBytes(data: array<byte>, at: nat, t: seq<byte>)
    requires at + |t| <= data.Length
    modifies data
    ensures data[..] == Spliced(old(data[..]), at, t)
  {
    var i := 0;
    while i < |t|
      invariant 0 <= i <= |t|
      invariant forall j :: 0 <= j < data.Length ==> data[j] == if at <= j < at + i then t[j - at] else old(data[j])
    {
      data[at + i] := t[i];
      i := i + 1;
    }
  }

  lemma ParseEnd(p: Parsing)
    ensures Ahead([], p) == p
  {
    if p.Strings? {
      assert [] + p.list == p.list;
    }
  }

  lemma ParseEmpty(ts: seq<Text>)
    ensures Ahead(ts, Parse([])) == Strings(ts)
  {
  }

  lemma ParseStep(ts: seq<Text>, d: seq<byte>)
    requires d != []
    ensures d[0] > |d| - 1 ==> Ahead(ts, Parse(d)) == Overflow
    ensures d[0] <= |d| - 1 ==>
      Ahead(ts, Parse(d)) == Ahead(if d[0] == 0 then ts else ts + [d[1..1 + d[0]]], Parse(d[1 + d[0]..]))
  {
    if d[0] <= |d| - 1 {
      var more := Parse(d[1 + d[0]..]);
      assert Parse(d) == Ahead(if d[0] == 0 then [] else [d[1..1 + d[0]]], more);
      hide Parse;
      AheadTwice(ts, if d[0] == 0 then [] else [d[1..1 + d[0]]], more);
      assert ts + [] == ts;
    }
  }

  lemma AheadTwice(ts: seq<Text>, us: seq<Text>, p: Parsing)
    ensures Ahead(ts, Ahead(us, p)) == Ahead(ts + us, p)
  {
    if p.Strings? {
      assert ts + (us + p.list) == ts + us + p.list;
    }
  }

  lemma EmptyChain()
    ensures Chain(null, []) && Texts(Reversed([])) == []
  {
  }

  // avahi_string_list_add_arbitrary
  method Push(l: Node?, ghost xs: seq<Node>, ghost nodes: set<Node>, t: seq<byte>)
    returns (n: Node, ghost ys: seq<Node>, ghost more: set<Node>)
    requires Chain(l, xs) && Within(xs, nodes)
    ensures Chain(n, ys) && Within(ys, more) && fresh(more - nodes)
    ensures Texts(Reversed(ys)) == Texts(Reversed(xs)) + [t]
  {
    n := new Node(l, t);
    ys, more := [n] + xs, nodes + {n};
    assert forall i :: 0 <= i < |xs| ==> xs[i] != n && ys[i + 1] == xs[i];
    PushedTexts(n, xs);
    hide Texts, Reversed;
  }

  lemma PushedTexts(n: Node, xs: seq<Node>)
    ensures Texts(Reversed([n] + xs)) == Texts(Reversed(xs)) + [n.text]
  {
    assert Reversed([n] + xs) == Reversed(xs) + [n];
  }

  // avahi_string_list_parse: every string is put in front, so the last one comes first.
  method ParseList(data: array<byte>, size: nat)
    returns (ok: bool, l: Node?, ghost xs: seq<Node>, ghost nodes: set<Node>)
    requires size <= data.Length
    ensures ok <==> Parse(data[..size]).Strings?
    ensures ok ==> Chain(l, xs) && Within(xs, nodes) && fresh(nodes) && Texts(Reversed(xs)) == Parse(data[..size]).list
  {
    l, xs, nodes := null, [], {};
    EmptyChain();
    var c: nat, room: nat := 0, size;
    ghost var d, ts: seq<Text> := data[..size], [];
    ParseEnd(Parse(d));
    assert d[0..] == d;
    hide Parse, Ahead, Chain, Texts, Reversed, Within;
    while room > 0
      invariant 0 <= c && 0 <= room && c + room == size
      invariant Chain(l, xs) && Within(xs, nodes) && fresh(nodes)
      invariant ts == Texts(Reversed(xs))
      invariant Parse(d) == Ahead(ts, Parse(d[c..]))
      decreases room
    {
      ParseAt(ts, d, c);
      var k := data[c];
      c, room := c + 1, room - 1;
      if k > room {
        return false, null, [], {};
      }
      if k > 0 {
        assert data[c..c + k] == d[c..c + k];
        ts := ts + [d[c..c + k]];
        var n;
        n, xs, nodes := Push(l, xs, nodes, data[c..c + k]);
        l := n;
      }
      c, room := c + k, room - k;
    }
    ParseEmpty(ts);
    ok := true;
  }

  lemma ParseAt(ts: seq<Text>, d: seq<byte>, c: nat)
    requires c < |d|
    ensures var k := d[c];
      Ahead(ts, Parse(d[c..])) ==
        if k > |d| - c - 1 then Overflow
        else Ahead(if k == 0 then ts else ts + [d[c + 1..c + 1 + k]], Parse(d[c + 1 + k..]))
  {
    var rest := d[c..];
    ParseStep(ts, rest);
    if rest[0] <= |rest| - 1 {
      assert rest[1..1 + rest[0]] == d[c + 1..c + 1 + d[c]];
      assert rest[1 + rest[0]..] == d[c + 1 + d[c]..];
    }
  }
}
