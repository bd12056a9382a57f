/**
 The bookkeeping of a service browser: its resolvers, the services they have found, and the
 stream of signals that tells of them.
 */
module ServiceBrowser {

  // ---------------------------------------------------------------- keys

  function Digit(d: nat): char
    requires d < 10
  {
    ['0', '1', '2', '3', '4', '5', '6', '7', '8', '9'][d]
  }

  predicate IsDigit(c: char) {
    '0' <= c <= '9'
  }

  // QString::number
  function Number(n: nat): (s: string)
    ensures s != [] && forall i :: 0 <= i < |s| ==> IsDigit(s[i])
  {
    if n < 10 then [Digit(n)] else Number(n / 10) + [Digit(n % 10)]
  }

  // A service goes by its name followed by its interface.
  function Key(name: string, interface: nat): string {
    name + Number(interface)
  }

  lemma {:induction false} NumberIsInjective(m: nat, n: nat)
    requires Number(m) == Number(n)
    ensures m == n
    decreases m
  {
    var s, t := Number(m), Number(n);
    if m >= 10 && n >= 10 {
      assert s[..|s| - 1] == Number(m / 10) && t[..|t| - 1] == Number(n / 10);
      NumberIsInjective(m / 10, n / 10);
      assert s[|s| - 1] == Digit(m % 10) && t[|t| - 1] == Digit(n % 10);
    }
  }

  // Two keys are the same exactly if the longer name goes on as the other number begins.
  lemma KeysAreEqual(name: string, interface: nat, other: string, another: nat)
    requires |name| <= |other|
    ensures Key(name, interface) == Key(other, another) <==>
      name <= other && Number(interface) == other[|name|..] + Number(another)
  {
    if Key(name, interface) == Key(other, another) {
      SameConcatenation(name, Number(interface), other, Number(another));
    } else if name <= other {
      assert name + (other[|name|..] + Number(another)) == other + Number(another);
    }
  }

  lemma SameConcatenation(a: string, x: string, b: string, y: string)
    requires |a| <= |b| && a + x == b + y
    ensures a <= b && x == b[|a|..] + y
  {
    var k := a + x;
    assert k[..|a|] == a && k[|a|..] == x;
    assert (b + y)[..|a|] == b[..|a|] && (b + y)[|a|..] == b[|a|..] + y;
  }

  lemma {:induction false} NumberShape(n: nat)
    ensures |Number(n)| == 1 <==> n < 10
    ensures n > 0 ==> Number(n)[0] != '0'
  {
    if n >= 10 {
      NumberShape(n / 10);
    }
  }

  predicate AllDigits(s: string) {
    forall i :: 0 <= i < |s| ==> IsDigit(s[i])
  }

  // Digits that do not begin with a zero are a number.
  lemma {:induction false} DigitsAreNumber(s: string) returns (n: nat)
    requires s != [] && AllDigits(s) && s[0] != '0'
    ensures Number(n) == s && n > 0
  {
    var last := s[|s| - 1];
    var d := last as int - '0' as int;
    assert 0 <= d < 10 && Digit(d) == last;
    if |s| == 1 {
      n := d;
    } else {
      var m := DigitsAreNumber(s[..|s| - 1]);
      n := m * 10 + d;
      assert n / 10 == m && n % 10 == d;
    }
  }

  // Among the digits at the end of a name is one that is not zero.
  predicate EndsInNumber(name: string) {
    exists i :: 0 <= i < |name| && name[i] != '0' && AllDigits(name[i..])
  }

  // Some other service has the same key.
  ghost predicate SharesKey(name: string, interface: nat) {
    exists other: string, another: nat ::
      (other != name || another != interface) && Key(other, another) == Key(name, interface)
  }

  // A service can share its key exactly if its interface has two digits or more, or its
  // name ends in a number.
  lemma KeyIsShared(name: string, interface: nat)
    ensures SharesKey(name, interface) <==> interface >= 10 || EndsInNumber(name)
  {
    if SharesKey(name, interface) {
      var other: string, another: nat :|
        (other != name || another != interface) && Key(other, another) == Key(name, interface);
      SharedKeyHasNumber(name, interface, other, another);
    }
    if interface >= 10 {
      assert Number(interface) == Number(interface / 10) + Number(interface % 10);
      var other := name + Number(interface / 10);
      assert Key(other, interface % 10) == Key(name, interface);
    } else if EndsInNumber(name) {
      var i :| 0 <= i < |name| && name[i] != '0' && AllDigits(name[i..]);
      var n := DigitsAreNumber(name[i..] + Number(interface));
      assert Key(name[..i], n) == Key(name, interface);
    }
  }

  lemma SharedKeyHasNumber(name: string, interface: nat, other: string, another: nat)
    requires other != name || another != interface
    requires Key(other, another) == Key(name, interface)
    ensures interface >= 10 || EndsInNumber(name)
  {
    if |name| <= |other| {
      KeysAreEqual(name, interface, other, another);
      NumberShape(interface);
      if |name| == |other| {
        assert Number(interface) == Number(another);
        NumberIsInjective(interface, another);
      }
    } else {
      KeysAreEqual(other, another, name, interface);
      NumberShape(another);
      var i := |other|;
      assert Number(another)[..|name| - i] == name[i..] && name[i] == Number(another)[0];
    }
  }

  // The maps hold one of two such services only.
  lemma KeysCollide()
    ensures Key("printer1", 2) == Key("printer", 12)
  {
    assert Number(12) == Number(1) + [Digit(2)];
  }

  // ---------------------------------------------------------------- services and signals

  class ServiceData {
    const name: string
    const kind: string
    const domain: string
    const host: string
    const interface: nat
    const port: int
    const txt: map<string, string>
    var ip: string

    constructor (name: string, kind: string, domain: string, host: string, interface: nat, port: int,
                 txt: map<string, string>)
      ensures this.name == name && this.kind == kind && this.domain == domain && this.host == host
      ensures this.interface == interface && this.port == port && this.txt == txt
    {
      this.name, this.kind, this.domain, this.host := name, kind, domain, host;
      this.interface, this.port, this.txt, this.ip := interface, port, txt, "";
    }

    function OwnKey(): string {
      Key(name, interface)
    }
  }

  datatype Signal = Added(service: ServiceData) | Updated(service: ServiceData) | Removed(service: ServiceData) | Error

  // What a listener who knows of some services makes of a signal, and which signals fit
  function Learn(known: set<string>, s: Signal): set<string> {
    match s
    case Added(v) => known + {v.OwnKey()}
    case Updated(_) => known
    case Removed(v) => known - {v.OwnKey()}
    case Error => known
  }

  predicate Fits(known: set<string>, s: Signal) {
    match s
    case Added(v) => v.OwnKey() !in known
    case Updated(v) => v.OwnKey() in known
    case Removed(v) => v.OwnKey() in known
    case Error => true
  }

  // The services that a listener who follows the signals knows of
  function Known(log: seq<Signal>): set<string> {
    if log == [] then {} else Learn(Known(log[..|log| - 1]), log[|log| - 1])
  }

  // A service is added when it is not known, and updated or removed when it is.
  predicate Consistent(log: seq<Signal>) {
    log == [] || (Consistent(log[..|log| - 1]) && Fits(Known(log[..|log| - 1]), log[|log| - 1]))
  }

  lemma LogGrows(log: seq<Signal>, s: Signal)
    ensures Known(log + [s]) == Learn(Known(log), s)
    ensures Consistent(log + [s]) <==> Consistent(log) && Fits(Known(log), s)
  {
    assert (log + [s])[..|log + [s]| - 1] == log;
  }

  // The signals about one service
  function About(log: seq<Signal>, key: string): seq<Signal> {
    if log == [] then []
    else
      var s := log[|log| - 1];
      About(log[..|log| - 1], key) + if !s.Error? && s.service.OwnKey() == key then [s] else []
  }

  // Of the form (Added Updated* Removed)*, with the last Removed still to come if open
  predicate Rounds(ss: seq<Signal>, open: bool) {
    if ss == [] then !open
    else
      match ss[|ss| - 1]
      case Added(_) => open && Rounds(ss[..|ss| - 1], false)
      case Updated(_) => open && Rounds(ss[..|ss| - 1], true)
      case Removed(_) => !open && Rounds(ss[..|ss| - 1], true)
      case Error => false
  }

  // Of every service the stream tells in rounds, the last one open as long as it is known.
  lemma {:induction false} SignalsComeInRounds(log: seq<Signal>, key: string)
    requires Consistent(log)
    ensures Rounds(About(log, key), key in Known(log))
  {
    if log != [] {
      var before, s := log[..|log| - 1], log[|log| - 1];
      SignalsComeInRounds(before, key);
      if !s.Error? && s.service.OwnKey() == key {
        RoundsGrow(About(before, key), s);
        assert Fits(Known(before), s) && Known(log) == Learn(Known(before), s);
      } else {
        assert About(log, key) == About(before, key);
      }
    }
  }

  lemma RoundsGrow(ss: seq<Signal>, s: Signal)
    ensures s.Added? && Rounds(ss, false) ==> Rounds(ss + [s], true)
    ensures s.Updated? && Rounds(ss, true) ==> Rounds(ss + [s], true)
    ensures s.Removed? && Rounds(ss, true) ==> Rounds(ss + [s], false)
  {
    assert (ss + [s])[..|ss + [s]| - 1] == ss;
  }

  // ---------------------------------------------------------------- text records

  function IndexOf(s: string, c: char): (p: int)
    ensures -1 <= p < |s|
    ensures p >= 0 ==> s[p] == c
    ensures forall i :: 0 <= i < (if p < 0 then |s| else p) ==> s[i] != c
  {
    if s == [] then -1
    else if s[0] == c then 0
    else if IndexOf(s[1..], c) < 0 then -1
    else 1 + IndexOf(s[1..], c)
  }

  // The entry for a name is the last one that has it.
  predicate IsLast(txt: seq<string>, i: nat, name: string) {
    i < |txt| && NameOf(txt[i]) == name && forall j :: i < j < |txt| ==> NameOf(txt[j]) != name
  }

  ghost predicate IsTxtMap(txt: seq<string>, m: map<string, string>) {
    && (forall k :: k in m ==> exists i: nat :: IsLast(txt, i, k) && m[k] == ValueOf(txt[i]))
    && (forall i :: 0 <= i < |txt| ==> NameOf(txt[i]) in m)
  }

  function NameOf(t: string): string {
    var pos := IndexOf(t, '=');
    if pos < 0 then t else t[..pos]
  }

  function ValueOf(t: string): string {
    var pos := IndexOf(t, '=');
    if pos < 0 then "" else t[pos + 1..]
  }

  lemma {:induction false} IndexIsFirst(s: string, c: char)
    ensures IndexOf(s, c) < 0 <==> c !in s
    ensures IndexOf(s, c) >= 0 ==> IndexOf(s, c) < |s| && s[IndexOf(s, c)] == c && c !in s[..IndexOf(s, c)]
  {
    if s != [] {
      IndexIsFirst(s[1..], c);
      assert s == [s[0]] + s[1..];
      var i := IndexOf(s, c);
      if i > 0 {
        assert s[..i] == [s[0]] + s[1..][..i - 1];
      }
    }
  }

  // A text is its name, the first equals sign and its value.
  lemma TextIsSplit(t: string)
    ensures '=' !in NameOf(t)
    ensures t == NameOf(t) + if '=' in t then "=" + ValueOf(t) else ""
    ensures '=' !in t ==> ValueOf(t) == ""
  {
    IndexIsFirst(t, '=');
    hide IndexOf;
  }

  method ReadTxt(txt: seq<string>) returns (m: map<string, string>)
    ensures IsTxtMap(txt, m)
  {
    m := map[];
    var i := 0;
    while i < |txt|
      invariant 0 <= i <= |txt|
      invariant IsTxtMap(txt[..i], m)
    {
      var pos := IndexOf(txt[i], '=');
      TxtMapGrows(txt, i, m);
      if pos < 0 {
        m := m[txt[i] := ""];
      } else {
        m := m[txt[i][..pos] := txt[i][pos + 1..]];
      }
      i := i + 1;
    }
    assert txt[..i] == txt;
  }

  lemma TxtMapGrows(txt: seq<string>, i: nat, m: map<string, string>)
    requires i < |txt| && IsTxtMap(txt[..i], m)
    ensures IsTxtMap(txt[..i + 1], m[NameOf(txt[i]) := ValueOf(txt[i])])
  {
    var name, next, ts := NameOf(txt[i]), m[NameOf(txt[i]) := ValueOf(txt[i])], txt[..i + 1];
    hide NameOf, ValueOf;
    forall k | k in next ensures exists p: nat :: IsLast(ts, p, k) && next[k] == ValueOf(ts[p]) {
      if k == name {
        assert IsLast(ts, i, k);
      } else {
        var p: nat :| IsLast(txt[..i], p, k) && m[k] == ValueOf(txt[..i][p]);
        assert forall j :: 0 <= j < i ==> ts[j] == txt[..i][j];
        assert IsLast(ts, p, k);
      }
    }
    forall j | 0 <= j < |ts| ensures NameOf(ts[j]) in next {
      if j < i {
        assert txt[..i][j] == ts[j];
      }
    }
  }

  // ---------------------------------------------------------------- the browser

  // What a resolver was asked to resolve
  datatype Resolver = Resolver(name: string, kind: string, domain: string, interface: nat)

  datatype BrowserEvent = Failure | New | Remove | AllForNow | CacheExhausted

  // A log goes on with removals of some services.
  predicate AreRemovals(before: seq<Signal>, log: seq<Signal>, services: map<string, ServiceData>) {
    && before <= log
    && forall i :: |before| <= i < |log| ==>
         log[i].Removed? && log[i].service.OwnKey() in services && log[i].service == services[log[i].service.OwnKey()]
  }

  class Browser {
    const client: bool
    var browser: bool
    var resolvers: map<string, Resolver>
    var services: map<string, ServiceData>
    var signals: seq<Signal>

    // There are services only where there are resolvers, and none of either without a
    // browser; the signals tell exactly of the services there are.
    ghost predicate Valid()
      reads this
    {
      && services.Keys <= resolvers.Keys
      && (!browser ==> resolvers == map[])
      && (forall k :: k in services ==> services[k].OwnKey() == k)
      && (forall k :: k in resolvers ==> Key(resolvers[k].name, resolvers[k].interface) == k)
      && Consistent(signals) && Known(signals) == services.Keys
    }

    constructor (client: bool)
      ensures Valid() && !browser && signals == [] && this.client == client
    {
      this.client, browser := client, false;
      resolvers, services, signals := map[], map[], [];
    }

    method Emit(s: Signal)
      modifies this`signals
      ensures signals == old(signals) + [s]
      ensures Known(signals) == Learn(Known(old(signals)), s)
      ensures Consistent(signals) <==> Consistent(old(signals)) && Fits(Known(old(signals)), s)
    {
      LogGrows(signals, s);
      signals := signals + [s];
    }

    // broswerCleanUp: every service that is still there is reported as removed.
    method CleanUp()
      requires Valid()
      modifies this`browser, this`resolvers, this`services, this`signals
      ensures Valid() && !browser && resolvers == map[] && services == map[]
      ensures AreRemovals(old(signals), signals, old(services))
    {
      if !browser {
        return;
      }
      browser := false;
      RemoveAll();
      services := map[];
      resolvers := map[];
    }

    method RemoveAll()
      requires forall k :: k in services ==> services[k].OwnKey() == k
      requires Consistent(signals) && Known(signals) == services.Keys
      modifies this`signals
      ensures Consistent(signals) && Known(signals) == {}
      ensures AreRemovals(old(signals), signals, services)
    {
      hide Consistent, Known;
      var rest := services.Keys;
      while rest != {}
        invariant rest <= services.Keys
        invariant Consistent(signals) && Known(signals) == rest
        invariant AreRemovals(old(signals), signals, services)
        decreases |rest|
      {
        var k :| k in rest;
        Emit(Removed(services[k]));
        rest := rest - {k};
      }
    }

    // browseCallback
    method OnBrowse(event: BrowserEvent, name: string, kind: string, domain: string, interface: nat)
      requires Valid() && browser
      modifies this`browser, this`resolvers, this`services, this`signals
      ensures Valid()
      ensures event.Failure? ==> !browser && services == map[] && resolvers == map[]
      ensures event.Failure? ==> exists log :: AreRemovals(old(signals), log, old(services)) && signals == log + [Error]
      ensures !event.Failure? ==> browser
      ensures event.New? ==> services == old(services) && signals == old(signals)
      ensures event.New? ==>
        var k := Key(name, interface);
        resolvers == if k in old(resolvers) then old(resolvers)
                     else old(resolvers)[k := Resolver(name, kind, domain, interface)]
      ensures event.Remove? ==>
        var k := Key(name, interface);
        && resolvers == old(resolvers) - {k} && services == old(services) - {k}
        && signals == old(signals) + if k in old(services) then [Removed(old(services)[k])] else []
      ensures event.AllForNow? || event.CacheExhausted? ==>
        resolvers == old(resolvers) && services == old(services) && signals == old(signals)
    {
      hide Key, Consistent, Known;
      var key := Key(name, interface);
      match event
      case Failure =>
        CleanUp();
        Emit(Error);
      case New =>
        if key !in resolvers {
          resolvers := resolvers[key := Resolver(name, kind, domain, interface)];
        }
      case Remove =>
        if key !in resolvers {
          return;
        }
        resolvers := resolvers - {key};
        if key !in services {
          return;
        }
        var zcs := services[key];
        services := services - {key};
        Emit(Removed(zcs));
      case AllForNow =>
      case CacheExhausted =>
    }

    ghost predicate IsRecord(s: ServiceData, name: string, kind: string, domain: string, host: string, interface: nat,
                             port: int, txt: seq<string>)
    {
      && s.name == name && s.kind == kind && s.domain == domain && s.host == host && s.interface == interface
      && s.port == port && IsTxtMap(txt, s.txt)
    }

    method Record(name: string, kind: string, domain: string, host: string, interface: nat, port: int, txt: seq<string>)
      returns (s: ServiceData)
      ensures fresh(s) && IsRecord(s, name, kind, domain, host, interface, port, txt)
      ensures s.OwnKey() == Key(name, interface)
    {
      var m := ReadTxt(txt);
      s := new ServiceData(name, kind, domain, host, interface, port, m);
    }

    // resolveCallback of a resolver that is there
    method OnResolve(found: bool, name: string, kind: string, domain: string, host: string, interface: nat, port: int,
                     txt: seq<string>, address: string)
      requires Valid() && Key(name, interface) in resolvers
      modifies this`services, this`signals, if Key(name, interface) in services then {services[Key(name, interface)]} else {}
      ensures Valid() && browser == old(browser) && resolvers == old(resolvers)
      ensures var k := Key(name, interface);
        if !found then
          && services == old(services) - {k}
          && signals == old(signals) + if k in old(services) then [Removed(old(services)[k])] else []
        else
          && k in services && services == old(services)[k := services[k]] && services[k].ip == address
          && signals == old(signals) + [if k in old(services) then Updated(services[k]) else Added(services[k])]
          && (k in old(services) ==> services[k] == old(services)[k])
          && (k !in old(services) ==>
                var s := services[k];
                fresh(s) && IsRecord(s, name, kind, domain, host, interface, port, txt))
    {
      hide Key, IsRecord, Consistent, Known;
      var key := Key(name, interface);
      if found {
        var newRecord := key !in services;
        if newRecord {
          var s := Record(name, kind, domain, host, interface, port, txt);
          services := services[key := s];
        }
        var zcs := services[key];
        zcs.ip := address;
        if newRecord {
          Emit(Added(zcs));
        } else {
          Emit(Updated(zcs));
        }
      } else if key in services {
        var zcs := services[key];
        services := services - {key};
        Emit(Removed(zcs));
      }
    }

    // startBrowser; whether the library can create a browser is an argument.
    method StartBrowser(created: bool)
      requires Valid()
      modifies this`browser, this`signals
      ensures Valid() && resolvers == old(resolvers) && services == old(services)
      ensures browser == (old(browser) || (client && created))
      ensures signals == old(signals) + if client && !old(browser) && created then [] else [Error]
    {
      if !client || browser {
        Emit(Error);
        return;
      }
      browser := created;
      if !browser {
        Emit(Error);
      }
    }

    // stopBrowser
    method StopBrowser()
      requires Valid()
      modifies this`browser, this`resolvers, this`services, this`signals
      ensures Valid() && !browser && resolvers == map[] && services == map[]
      ensures AreRemovals(old(signals), signals, old(services))
      ensures Known(signals) == {}
    {
      CleanUp();
    }
  }
}
