/**
 The lists that thread announcers and entries together, taken as values, and what
 keeps them consistent when an announcer is linked or unlinked.
 */
module AnnouncerLinks {
  import opened AnnouncerTypes

  ghost predicate NoDuplicates<T>(s: seq<T>) {
    forall i, j :: 0 <= i < j < |s| ==> s[i] != s[j]
  }

  // Unlinking one element of a list.
  function Without<T(==)>(s: seq<T>, x: T): (r: seq<T>)
    requires NoDuplicates(s)
    ensures NoDuplicates(r)
    ensures forall y :: y in r ==> y in s && y != x
    ensures forall y :: y in s && y != x ==> y in r
  {
    if s == [] then []
    else if s[0] == x then s[1..]
    else
      var rest := Without(s[1..], x);
      assert s[0] !in rest;
      [s[0]] + rest
  }

  // The lists of the server: announcers by entry and by interface, entries by group.
  datatype Links = Links(byEntry: map<Entry, seq<Announcer>>, byInterface: map<Interface, seq<Announcer>>,
                         byGroup: map<Group, seq<Entry>>, dead: set<Entry>)

  // Every announcer is in the list of its entry and in the list of its interface,
  // and those lists hold nothing else; dead entries have none.
  ghost predicate LinksOk(l: Links, anns: set<Announcer>) {
    && (forall a :: a in anns ==>
          && a.entry in l.byEntry && a in l.byEntry[a.entry]
          && a.iface in l.byInterface && a in l.byInterface[a.iface])
    && (forall e :: e in l.byEntry ==> EntryOk(l, anns, e))
    && (forall i :: i in l.byInterface ==> InterfaceOk(l, anns, i))
    && (forall g, e :: g in l.byGroup && e in l.byGroup[g] ==> e in l.byEntry && e.group == g)
  }

  ghost predicate EntryOk(l: Links, anns: set<Announcer>, e: Entry)
    requires e in l.byEntry
  {
    && NoDuplicates(l.byEntry[e])
    && (forall a :: a in l.byEntry[e] ==> a in anns && a.entry == e)
    && (e in l.dead ==> l.byEntry[e] == [])
    && (e.group != null ==> e.group in l.byGroup && e in l.byGroup[e.group])
  }

  ghost predicate InterfaceOk(l: Links, anns: set<Announcer>, i: Interface)
    requires i in l.byInterface
  {
    && NoDuplicates(l.byInterface[i])
    && (forall a :: a in l.byInterface[i] ==> a in anns && a.iface == i)
  }

  lemma LinkOneMore(l: Links, anns: set<Announcer>, a: Announcer)
    requires LinksOk(l, anns) && a !in anns
    requires a.entry in l.byEntry && a.iface in l.byInterface && a.entry !in l.dead
    ensures LinksOk(l.(byEntry := l.byEntry[a.entry := [a] + l.byEntry[a.entry]],
                       byInterface := l.byInterface[a.iface := [a] + l.byInterface[a.iface]]), anns + {a})
  {
    var m := l.(byEntry := l.byEntry[a.entry := [a] + l.byEntry[a.entry]],
                byInterface := l.byInterface[a.iface := [a] + l.byInterface[a.iface]]);
    forall e | e in m.byEntry ensures EntryOk(m, anns + {a}, e) {
      assert EntryOk(l, anns, e);
    }
    forall i | i in m.byInterface ensures InterfaceOk(m, anns + {a}, i) {
      assert InterfaceOk(l, anns, i);
    }
  }

  lemma UnlinkOne(l: Links, anns: set<Announcer>, a: Announcer)
    requires LinksOk(l, anns) && a in anns
    ensures a.entry in l.byEntry && NoDuplicates(l.byEntry[a.entry])
    ensures a.iface in l.byInterface && NoDuplicates(l.byInterface[a.iface])
    ensures LinksOk(l.(byEntry := l.byEntry[a.entry := Without(l.byEntry[a.entry], a)],
                       byInterface := l.byInterface[a.iface := Without(l.byInterface[a.iface], a)]), anns - {a})
  {
    assert EntryOk(l, anns, a.entry) && InterfaceOk(l, anns, a.iface);
    var m := l.(byEntry := l.byEntry[a.entry := Without(l.byEntry[a.entry], a)],
                byInterface := l.byInterface[a.iface := Without(l.byInterface[a.iface], a)]);
    forall e | e in m.byEntry ensures EntryOk(m, anns - {a}, e) {
      assert EntryOk(l, anns, e);
    }
    forall i | i in m.byInterface ensures InterfaceOk(m, anns - {a}, i) {
      assert InterfaceOk(l, anns, i);
    }
  }

  // An entry whose announcers are gone may be marked dead.
  lemma MarkDead(l: Links, anns: set<Announcer>, e: Entry)
    requires LinksOk(l, anns) && e in l.byEntry && l.byEntry[e] == []
    ensures LinksOk(l.(dead := l.dead + {e}), anns)
  {
    var m := l.(dead := l.dead + {e});
    forall f | f in m.byEntry ensures EntryOk(m, anns, f) {
      assert EntryOk(l, anns, f);
    }
    forall i | i in m.byInterface ensures InterfaceOk(m, anns, i) {
      assert InterfaceOk(l, anns, i);
    }
  }

  // A new entry, with its group's list if it has one.
  lemma EnterOne(l: Links, anns: set<Announcer>, e: Entry)
    requires LinksOk(l, anns) && e !in l.byEntry && e !in l.dead && (e.group != null ==> e.group in l.byGroup)
    ensures LinksOk(l.(byEntry := l.byEntry[e := []],
                       byGroup := if e.group == null then l.byGroup
                                  else l.byGroup[e.group := [e] + l.byGroup[e.group]]), anns)
  {
    var m := l.(byEntry := l.byEntry[e := []],
                byGroup := if e.group == null then l.byGroup
                           else l.byGroup[e.group := [e] + l.byGroup[e.group]]);
    forall f | f in m.byEntry ensures EntryOk(m, anns, f) {
      if f != e {
        assert EntryOk(l, anns, f);
      }
    }
    forall i | i in m.byInterface ensures InterfaceOk(m, anns, i) {
      assert InterfaceOk(l, anns, i);
    }
  }

  lemma NewGroupLinks(l: Links, anns: set<Announcer>, g: Group)
    requires LinksOk(l, anns) && g !in l.byGroup
    ensures LinksOk(l.(byGroup := l.byGroup[g := []]), anns)
  {
    var m := l.(byGroup := l.byGroup[g := []]);
    forall e | e in m.byEntry ensures EntryOk(m, anns, e) {
      assert EntryOk(l, anns, e);
    }
    forall i | i in m.byInterface ensures InterfaceOk(m, anns, i) {
      assert InterfaceOk(l, anns, i);
    }
  }

  lemma NewInterfaceLinks(l: Links, anns: set<Announcer>, i: Interface)
    requires LinksOk(l, anns) && i !in l.byInterface
    ensures LinksOk(l.(byInterface := l.byInterface[i := []]), anns)
  {
    var m := l.(byInterface := l.byInterface[i := []]);
    forall e | e in m.byEntry ensures EntryOk(m, anns, e) {
      assert EntryOk(l, anns, e);
    }
    forall j | j in m.byInterface ensures InterfaceOk(m, anns, j) {
      if j != i {
        assert InterfaceOk(l, anns, j);
      }
    }
  }

  // An interface without announcers may be taken off the list.
  lemma FreeInterfaceLinks(l: Links, anns: set<Announcer>, i: Interface)
    requires LinksOk(l, anns) && i in l.byInterface && l.byInterface[i] == []
    ensures LinksOk(l.(byInterface := l.byInterface - {i}), anns)
  {
    var m := l.(byInterface := l.byInterface - {i});
    forall e | e in m.byEntry ensures EntryOk(m, anns, e) {
      assert EntryOk(l, anns, e);
    }
    forall j | j in m.byInterface ensures InterfaceOk(m, anns, j) {
      assert InterfaceOk(l, anns, j);
    }
  }
}
