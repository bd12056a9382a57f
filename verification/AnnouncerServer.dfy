/**
 The server that owns the announcers.  Its methods change entries, groups,
 interfaces and announcers in place; each is proved to take the step of the
 protocol that carries its name.
 */
module AnnouncerServer {
  import opened AnnouncerTypes
  import opened AnnouncerLinks
  import opened AnnouncerProtocol

  ghost function Elements(s: seq<Announcer>): set<Announcer> {
    set a | a in s
  }

  ghost function GroupsOf(e: Entry): set<Group> {
    if e.group == null then {} else {e.group}
  }

  ghost function GroupOf(a: Announcer): set<Group> {
    GroupsOf(a.entry)
  }

  ghost predicate Paired(A: set<Announcer>, e: Entry, i: Interface) {
    exists a :: a in A && a.entry == e && a.iface == i
  }

  // An announcer of the entry on every announcing interface that it matches
  ghost predicate Covers(A: set<Announcer>, e: Entry, list: seq<Interface>)
    reads list`announcing
  {
    forall i :: i in list && e.Matches(i) && i.announcing ==> Paired(A, e, i)
  }

  lemma CoversMore(A: set<Announcer>, B: set<Announcer>, e: Entry, list: seq<Interface>)
    requires A <= B && Covers(A, e, list)
    ensures Covers(B, e, list)
  {
    forall i | i in list && e.Matches(i) && i.announcing ensures Paired(B, e, i) {
      assert Paired(A, e, i);
    }
  }

  // How deep next_state may still nest from a phase.
  ghost function Depth(p: Phase): nat {
    match p
    case Probing => 3
    case Waiting => 2
    case _ => 0
  }

  class Server {
    var entries: seq<Entry>
    var interfaces: seq<Interface>
    var groups: seq<Group>
    ghost var anns: set<Announcer>
    ghost var states: seq<State>
    ghost var steps: seq<Step>

    constructor ()
      ensures Good() && Snapshot() == EMPTY && steps == []
    {
      entries, interfaces, groups, anns := [], [], [], {};
      states, steps := [EMPTY], [];
    }

    ghost function Snapshot(): State
      reads `anns, `groups, anns, groups`state, groups`nProbing, groups`registerTimer, groups`lost
    {
      State(map a | a in anns :: a.Now(), map g | g in groups :: g.Now())
    }

    ghost function Lines(): Links
      reads `entries, `interfaces, `groups, groups`entries, entries`announcers, entries`dead, interfaces`announcers
    {
      Links(map e | e in entries :: e.announcers, map i | i in interfaces :: i.announcers,
            map g | g in groups :: g.entries, set e | e in entries && e.dead)
    }

    ghost predicate Valid()
      reads `anns, `entries, `interfaces, `groups
      reads groups`entries, entries`announcers, entries`dead, interfaces`announcers
    {
      NoDuplicates(interfaces) && LinksOk(Lines(), anns)
    }

    // What the calls from outside keep: the lists are in order, and the calls made so far
    // are a run of the protocol that ends here.
    ghost predicate Good()
      reads this, groups`entries, entries`announcers, entries`dead, interfaces`announcers
      reads anns, groups`state, groups`nProbing, groups`registerTimer, groups`lost
    {
      Valid() && IsRun(states, steps) && Snapshot() == states[|steps|]
    }

    // One more step has been taken.
    ghost predicate Took(before: seq<State>, done: seq<Step>, step: Step)
      reads this, groups`entries, entries`announcers, entries`dead, interfaces`announcers
      reads anns, groups`state, groups`nProbing, groups`registerTimer, groups`lost
    {
      Good() && steps == done + [step] && states == before + [Snapshot()]
    }

    lemma GoodMeans()
      requires Good()
      ensures Valid() && Inv(Snapshot()) && OnePerPair(anns)
      ensures IsRun(states, steps) && |states| == |steps| + 1 && Snapshot() == states[|steps|]
    {
      RunInv(states, steps, |steps|);
      hide Inv, LinksOk;
      PairsApart();
    }

    lemma TookIsGood(before: seq<State>, done: seq<Step>, step: Step)
      requires Took(before, done, step)
      ensures Good()
    {
    }

    ghost method Record(step: Step)
      requires Valid() && IsRun(states, steps) && Takes(states[|steps|], step, Snapshot())
      modifies `states, `steps
      ensures Took(old(states), old(steps), step)
    {
      hide LinksOk, Takes, Snapshot;
      RunGrows(states, steps, step, Snapshot());
      states, steps := states + [Snapshot()], steps + [step];
    }

    // So the theorems on runs are theorems on the server: whatever calls have been made, the
    // counter of a group is the number of its probing announcers and of those lost,
    lemma CallsKeepLedger(g: Group)
      requires Good() && g in groups
      ensures g.nProbing == |ProbingIn(Snapshot().anns, g)| + g.lost
      ensures g.state == Registering && !g.registerTimer ==> g.nProbing > 0
    {
      hide *;
      GoodMeans();
      GroupNow(g);
      RunLedger(states, steps, |steps|, g);
    }

    // and nobody is heard while its group registers, nor held back once it is registered.
    lemma CallsKeepBarrier(a: Announcer)
      requires Good() && a in anns && a.entry.group != null
      ensures a.entry.group in groups && a.entry.group.state in {Registering, Registered}
      ensures a.entry.group.state == Registering ==> a.phase != Announcing && a.announceLog == []
      ensures a.entry.group.state == Registered ==> a.phase != Waiting
    {
      hide *;
      GoodMeans();
      AnnouncerNow(a);
      RunBarrier(states, steps, |steps|, a);
      GroupIsNow(a.entry.group);
    }

    // A group that lost a probe while it registered is registering still, unless it was reset
    // or withdrawn by a call since.
    lemma CallsKeepStuck(since: nat, g: Group)
      requires Good() && since < |states| && Stuck(states[since], g)
      requires forall k :: since <= k < |steps| ==> !(steps[k].Abandon? && steps[k].g == g)
      ensures g in groups && g.state == Registering && g.lost > 0
    {
      GoodMeans();
      hide Good, IsRun, Snapshot;
      StuckForGood(states, steps, since, |steps|, g);
      GroupIsNow(g);
    }

    lemma AnnouncerNow(a: Announcer)
      requires a in anns
      ensures a in Snapshot().anns && Snapshot().anns[a] == View(a.phase, a.n, a.secDelay, a.timer, a.probeLog, a.announceLog)
    {
    }

    lemma GroupIsNow(g: Group)
      requires g in Snapshot().groups
      ensures g in groups && Snapshot().groups[g] == GroupView(g.state, g.nProbing, g.registerTimer, g.lost)
    {
    }

    lemma ValidLists(g: Group)
      requires Valid() && g in groups
      ensures Lists(g)
    {
      forall e, a | e in g.entries && a in e.announcers ensures a in anns && InGroup(a, g) {
        assert e in Lines().byGroup[g];
        assert EntryOk(Lines(), anns, e);
      }
      forall a | a in anns && InGroup(a, g) ensures a.entry in g.entries && a in a.entry.announcers {
        assert EntryOk(Lines(), anns, a.entry);
      }
    }

    // If no list has changed, the lists are the same.
    twostate lemma SameLines()
      requires entries == old(entries) && interfaces == old(interfaces) && groups == old(groups)
      requires forall e :: e in entries ==> e.announcers == old(e.announcers) && e.dead == old(e.dead)
      requires forall i :: i in interfaces ==> i.announcers == old(i.announcers)
      requires forall g :: g in groups ==> g.entries == old(g.entries)
      ensures Lines() == old(Lines())
    {
      var l, m := old(Lines()), Lines();
      assert m.byEntry == l.byEntry && m.byInterface == l.byInterface;
      assert m.byGroup == l.byGroup && m.dead == l.dead;
    }

    // The lists reached from a group hold exactly its announcers.
    ghost predicate Lists(g: Group)
      reads this`anns, g`entries, g.entries`announcers
    {
      && (forall e, a :: e in g.entries && a in e.announcers ==> a in anns && InGroup(a, g))
      && (forall a :: a in anns && InGroup(a, g) ==> a.entry in g.entries && a in a.entry.announcers)
    }

    predicate IsCommitted(e: Entry)
      reads e.group
    {
      e.group == null || e.group.state == Registering || e.group.state == Registered
    }

    method GetAnnouncer(e: Entry, i: Interface) returns (r: Announcer?)
      requires Valid() && e in entries && i in interfaces
      ensures r != null ==> r in anns && r.entry == e && r.iface == i
      ensures r == null ==> !Paired(anns, e, i)
    {
      assert EntryOk(Lines(), anns, e);
      for k := 0 to |e.announcers|
        invariant forall j :: 0 <= j < k ==> e.announcers[j].iface != i
      {
        if e.announcers[k].iface == i {
          return e.announcers[k];
        }
      }
      return null;
    }

    // ------------------------------------------------------------ state changes

    method ChangeState(g: Group, state: GroupState)
      modifies g`state, g`registerTimer
      ensures g.state == state
      ensures g.registerTimer == (old(g.registerTimer) && (state == old(g.state) || old(g.state) != Registering))
    {
      if g.state == state {
        return;
      }
      if g.state == Registering {
        g.registerTimer := false;
      }
      g.state := state;
    }

    // If only one announcer has changed, only its view has.
    twostate lemma OneView(a: Announcer)
      requires a in anns && anns == old(anns) && groups == old(groups)
      requires forall b :: b in anns && b != a ==> b.Now() == old(b.Now())
      requires forall g :: g in groups ==> g.Now() == old(g.Now())
      ensures Snapshot() == old(Snapshot()).(anns := old(Snapshot()).anns[a := a.Now()])
    {
      var s, t := old(Snapshot()), Snapshot();
      assert t.anns == s.anns[a := a.Now()];
      assert t.groups == s.groups;
    }

    // An announcer has changed, and with it perhaps its group.
    twostate lemma OneViewAndGroup(a: Announcer)
      requires a in anns && anns == old(anns) && groups == old(groups)
      requires a.entry.group != null ==> a.entry.group in groups
      requires forall b :: b in anns && b != a ==> b.Now() == old(b.Now())
      requires forall h :: h in groups && h != a.entry.group ==> h.Now() == old(h.Now())
      ensures Snapshot().anns == old(Snapshot()).anns[a := a.Now()]
      ensures Snapshot().groups == if a.entry.group == null then old(Snapshot()).groups
                                   else old(Snapshot()).groups[a.entry.group := a.entry.group.Now()]
    {
      var s, t := old(Snapshot()), Snapshot();
      assert t.anns == s.anns[a := a.Now()];
      if a.entry.group == null {
        assert t.groups == s.groups;
      } else {
        assert t.groups == s.groups[a.entry.group := a.entry.group.Now()];
      }
    }

    method PostProbe(a: Announcer)
      modifies a`phase, a`n, a`secDelay, a`timer, a`probeLog, a`announceLog
      ensures a.Now() == ProbeStep(old(a.Now()))
    {
      a.probeLog := a.probeLog + [Probe];
      a.timer, a.probeLog := After(250, 0), a.probeLog + [Arm(250)];
      a.n := a.n + 1;
    }

    method PostAnnouncement(a: Announcer)
      modifies a`phase, a`n, a`secDelay, a`timer, a`probeLog, a`announceLog
      ensures a.Now() == AnnounceStep(old(a.Now()))
    {
      a.announceLog := a.announceLog + [Announce];
      a.n := a.n + 1;
      if a.n >= 4 {
        a.phase := Established;
        a.timer := Off;
      } else {
        a.timer, a.announceLog := After(a.secDelay * 1000, 250), a.announceLog + [Arm(a.secDelay * 1000)];
        if a.n < 10 {
          a.secDelay := a.secDelay * 2;
        }
      }
    }

    // The last probe has been sent: leave the counter and move on, to the barrier
    // if the group is still registering.
    method FinishProbing(a: Announcer)
      requires a.entry.group != null ==> a.entry.group.nProbing > 0
      modifies a`phase, a`n, a`secDelay, a`timer, a`probeLog, a`announceLog, GroupOf(a)`nProbing
      ensures a.entry.group != null ==> a.entry.group.nProbing == old(a.entry.group.nProbing) - 1
      ensures a.Now() == if a.entry.group != null && a.entry.group.state == Registering
                         then old(a.Now()).(timer := Off, phase := Waiting)
                         else old(a.Now()).(timer := Off, phase := Announcing, n := 1)
    {
      if a.entry.group != null {
        a.entry.group.nProbing := a.entry.group.nProbing - 1;
      }
      if a.entry.group != null && a.entry.group.state == Registering {
        a.phase := Waiting;
      } else {
        a.phase := Announcing;
        a.n := 1;
      }
      a.timer := Off;
    }

    method LastProbe(a: Announcer)
      requires CanFire(Snapshot(), a) && a.phase == Probing
      modifies a`phase, a`n, a`secDelay, a`timer, a`probeLog, a`announceLog, GroupOf(a)`nProbing
      ensures Snapshot() == LeaveCounter(old(Snapshot()), a)
      ensures a.phase == if a.entry.group != null && a.entry.group.state == Registering then Waiting else Announcing
    {
      FinishProbing(a);
      OneViewAndGroup(a);
    }

    method ProbeAgain(a: Announcer)
      requires a in anns
      modifies a`phase, a`n, a`secDelay, a`timer, a`probeLog, a`announceLog
      ensures var s := old(Snapshot()); Snapshot() == s.(anns := s.anns[a := ProbeStep(s.anns[a])])
    {
      PostProbe(a);
      OneView(a);
    }

    method AnnounceAgain(a: Announcer)
      requires a in anns
      modifies a`phase, a`n, a`secDelay, a`timer, a`probeLog, a`announceLog
      ensures var s := old(Snapshot()); Snapshot() == s.(anns := s.anns[a := AnnounceStep(s.anns[a])])
    {
      PostAnnouncement(a);
      OneView(a);
    }

    // next_state: what an announcer does when its time has come.
    method NextState(a: Announcer)
      requires CanFire(Snapshot(), a)
      requires a.phase in {Probing, Waiting} && a.entry.group != null ==> Lists(a.entry.group)
      modifies anns`phase, anns`n, anns`secDelay, anns`timer, anns`probeLog, anns`announceLog
      modifies groups`state, groups`nProbing, groups`registerTimer
      ensures Snapshot() == Fire(old(Snapshot()), a)
      decreases Depth(a.phase), 0
    {
      FiringAnnouncer(a);
      hide AnnouncerProtocol.CheckProbed, LeaveCounter, Fire, CanFire, Snapshot, Lists;
      FireCases(Snapshot(), a);
      if a.phase == Waiting {
        CheckProbed(a.entry.group, true);
      } else if a.phase == Probing {
        if a.n >= 4 {
          LastProbe(a);
          NextState(a);
        } else {
          ProbeAgain(a);
        }
      } else if a.phase == Announcing {
        AnnounceAgain(a);
      }
    }

    lemma FiringAnnouncer(a: Announcer)
      requires CanFire(Snapshot(), a)
      ensures a in anns && Snapshot().anns[a] == a.Now()
      ensures a.phase == Waiting ==> a.entry.group != null && a.entry.group in groups
    {
    }

    method ReleaseOne(a: Announcer, immediately: bool)
      requires a in anns
      modifies anns`phase, anns`n, anns`secDelay, anns`timer, anns`probeLog, anns`announceLog
      modifies groups`state, groups`nProbing, groups`registerTimer
      ensures Snapshot() == old(Snapshot()).(anns := ReleaseAll(old(Snapshot()).anns, {a}, immediately))
      decreases 1, 0
    {
      ghost var s := Snapshot();
      ReleaseJust(s.anns, a, immediately);
      if a.phase == Waiting {
        a.phase := Announcing;
        if immediately {
          a.n := 1;
          OneView(a);
          FireAnnouncing(s, a, a.Now());
          NextState(a);
        } else {
          a.n := 0;
          a.timer, a.announceLog := After(0, 250), a.announceLog + [Arm(0)];
          OneView(a);
        }
      }
    }

    method ReleaseEntry(e: Entry, immediately: bool)
      requires forall a :: a in e.announcers ==> a in anns
      modifies anns`phase, anns`n, anns`secDelay, anns`timer, anns`probeLog, anns`announceLog
      modifies groups`state, groups`nProbing, groups`registerTimer
      ensures Snapshot() == old(Snapshot()).(anns := ReleaseAll(old(Snapshot()).anns, Elements(e.announcers), immediately))
      decreases 1, 1
    {
      ghost var s := Snapshot();
      ghost var done: set<Announcer> := {};
      assert s.anns == ReleaseAll(s.anns, {}, immediately);
      for m := 0 to |e.announcers|
        invariant forall j :: 0 <= j < m ==> e.announcers[j] in done
        invariant forall a :: a in done ==> a in e.announcers
        invariant Snapshot() == s.(anns := ReleaseAll(s.anns, done, immediately))
      {
        var a := e.announcers[m];
        ReleaseMore(s.anns, done, {a}, immediately);
        ReleaseOne(a, immediately);
        done := done + {a};
      }
      assert done == Elements(e.announcers);
    }

    method ReleaseGroup(g: Group, immediately: bool)
      requires Lists(g)
      modifies anns`phase, anns`n, anns`secDelay, anns`timer, anns`probeLog, anns`announceLog
      modifies groups`state, groups`nProbing, groups`registerTimer
      ensures Snapshot() == old(Snapshot()).(anns := ReleaseAll(old(Snapshot()).anns, MembersOf(anns, g), immediately))
      decreases 1, 2
    {
      ghost var s := Snapshot();
      ghost var lists :=
        seq(|g.entries|, k requires 0 <= k < |g.entries| reads g, g.entries => Elements(g.entries[k].announcers));
      forall a | a in MembersOf(anns, g) ensures exists k :: 0 <= k < |lists| && a in lists[k] {
        var k :| 0 <= k < |g.entries| && g.entries[k] == a.entry;
        assert a in lists[k];
      }
      assert s.anns == ReleaseAll(s.anns, {}, immediately);
      ghost var done: set<Announcer> := {};
      for k := 0 to |g.entries|
        invariant done <= MembersOf(anns, g)
        invariant forall j :: 0 <= j < k ==> lists[j] <= done
        invariant Snapshot() == s.(anns := ReleaseAll(s.anns, done, immediately))
      {
        assert Elements(g.entries[k].announcers) == lists[k] <= MembersOf(anns, g);
        ReleaseMore(s.anns, done, lists[k], immediately);
        ReleaseEntry(g.entries[k], immediately);
        done := done + lists[k];
      }
      assert done == MembersOf(anns, g);
    }

    method OpenGroup(g: Group)
      requires g in groups && g.state == Registering
      modifies g`state, g`registerTimer
      ensures var s := old(Snapshot());
              Snapshot() == s.(groups := s.groups[g := s.groups[g].(state := Registered, registerTimer := false)])
    {
      ghost var s := Snapshot();
      ChangeState(g, Registered);
      assert Snapshot().anns == s.anns;
      assert Snapshot().groups == s.groups[g := s.groups[g].(state := Registered, registerTimer := false)];
    }

    method CheckProbed(g: Group, immediately: bool)
      requires g in groups && Lists(g)
      modifies anns`phase, anns`n, anns`secDelay, anns`timer, anns`probeLog, anns`announceLog
      modifies groups`state, groups`nProbing, groups`registerTimer
      ensures Snapshot() == AnnouncerProtocol.CheckProbed(old(Snapshot()), g, immediately)
      decreases 1, 3
    {
      hide Snapshot, Lists, ReleaseAll, MembersOf;
      GroupNow(g);
      if g.state != Registering || g.nProbing > 0 {
        return;
      }
      OpenGroup(g);
      ReleaseGroup(g, immediately);
    }

    lemma GroupNow(g: Group)
      requires g in groups
      ensures g in Snapshot().groups && Snapshot().groups[g] == GroupView(g.state, g.nProbing, g.registerTimer, g.lost)
      ensures Snapshot().anns.Keys == anns
    {
    }
  
    // elapse_announce: the time event of an announcer.
    method TimerElapsed(a: Announcer)
      requires Good() && a in anns && a.timer != Off
      modifies anns`phase, anns`n, anns`secDelay, anns`timer, anns`probeLog, anns`announceLog
      modifies groups`state, groups`nProbing, groups`registerTimer, `states, `steps
      ensures Lines() == old(Lines()) && Took(old(states), old(steps), TimerFires(a))
      ensures CanFire(old(Snapshot()), a) && Snapshot() == Fire(old(Snapshot()), a)
    {
      hide Fire, CanFire, Inv, Snapshot, LinksOk, Lists, IsRun, Good, Took;
      GoodMeans();
      AnnouncerNow(a);
      ReadyToFire(a);
      NextState(a);
      SameLines();
      Record(TimerFires(a));
    }

    // In a good state an announcer may always take its next step.
    lemma ReadyToFire(a: Announcer)
      requires Valid() && Inv(Snapshot()) && a in anns
      ensures CanFire(Snapshot(), a) && (a.entry.group != null ==> Lists(a.entry.group))
    {
      FireReady(Snapshot(), a);
      assert AnnOk(Snapshot(), a);
      if a.entry.group != null {
        assert a.entry.group in Snapshot().groups;
        ValidLists(a.entry.group);
      }
    }

    // ------------------------------------------------------------ new announcers

    method GoToInitialState(a: Announcer)
      modifies a`phase, a`n, a`secDelay, a`timer, a`probeLog, a`announceLog, GroupOf(a)`nProbing
      ensures var free := a.entry.group == null || a.entry.group.state == Registered;
              var p := InitialPhase(a.entry.flags, free);
              && a.Now() == Start(p)
              && (a.entry.group != null ==>
                    a.entry.group.nProbing == old(a.entry.group.nProbing) + if p == Probing then 1 else 0)
      ensures a.phase == Probing <==> a.entry.flags.unique && !a.entry.flags.noProbe
      ensures a.phase == Established <==> a.phase != Probing && a.entry.flags.noAnnounce
      ensures a.phase == Waiting ==> a.entry.group != null && a.entry.group.state != Registered
      ensures a.phase == Announcing ==> a.entry.group == null || a.entry.group.state == Registered
      ensures a.timer == if a.phase == Probing || a.phase == Announcing then After(0, 250) else Off
    {
      var e := a.entry;
      if e.flags.unique && !e.flags.noProbe {
        a.phase := Probing;
      } else if !e.flags.noAnnounce {
        if e.group == null || e.group.state == Registered {
          a.phase := Announcing;
        } else {
          a.phase := Waiting;
        }
      } else {
        a.phase := Established;
      }
      a.n, a.secDelay := 1, 1;
      a.probeLog, a.announceLog := [], [];
      if a.phase == Probing && e.group != null {
        e.group.nProbing := e.group.nProbing + 1;
      }
      SetFirstTimer(a);
    }

    // The jittered first timer of a probing or announcing announcer.
    method SetFirstTimer(a: Announcer)
      requires a.n == 1 && a.secDelay == 1 && a.probeLog == [] && a.announceLog == []
      modifies a`timer, a`probeLog, a`announceLog
      ensures a.Now() == Start(a.phase)
    {
      if a.phase == Probing {
        a.timer, a.probeLog := After(0, 250), [Arm(0)];
      } else if a.phase == Announcing {
        a.timer, a.announceLog := After(0, 250), [Arm(0)];
      } else {
        a.timer := Off;
      }
    }

    // Linking a new announcer at the head of both its lists.
    method Link(a: Announcer)
      requires Valid() && a !in anns && a.entry in entries && a.iface in interfaces && !a.entry.dead
      modifies this`anns, a.entry`announcers, a.iface`announcers
      ensures Valid() && anns == old(anns) + {a}
    {
      hide LinksOk;
      LinkOneMore(Lines(), anns, a);
      ghost var l := Lines();
      a.iface.announcers := [a] + a.iface.announcers;
      a.entry.announcers := [a] + a.entry.announcers;
      anns := anns + {a};
      assert Lines().byEntry == l.byEntry[a.entry := [a] + l.byEntry[a.entry]];
      assert Lines().byInterface == l.byInterface[a.iface := [a] + l.byInterface[a.iface]];
      assert Lines().byGroup == l.byGroup && Lines().dead == l.dead;
    }

    // An announcer has joined; the counter of its group counts it if it probes.
    twostate lemma Joined(new a: Announcer)
      requires a !in old(anns) && anns == old(anns) + {a} && groups == old(groups)
      requires a.entry.group != null ==> a.entry.group in groups
      requires forall b :: b in old(anns) ==> b.Now() == old(b.Now())
      requires forall h :: h in groups && h != a.entry.group ==> h.Now() == old(h.Now())
      requires var free := a.entry.group == null || a.entry.group.state == Registered;
               a.Now() == Start(InitialPhase(a.entry.flags, free))
      requires var g := a.entry.group;
               g != null ==> g.Now() == old(g.Now()).(
                 nProbing := old(g.nProbing) + if a.entry.flags.Probes() then 1 else 0)
      ensures Snapshot() == AddAll(old(Snapshot()), {a})
    {
      hide AddAll, Start, InitialPhase;
      var s, t := old(Snapshot()), Snapshot();
      AddOne(s, a);
      var g := a.entry.group;
      assert t.anns == s.anns[a := a.Now()];
      assert t.groups == if g == null then s.groups else s.groups[g := g.Now()];
    }

    // Starting an announcer leaves the lists alone.
    method StartLinked(a: Announcer)
      modifies a`phase, a`n, a`secDelay, a`timer, a`probeLog, a`announceLog, GroupOf(a)`nProbing
      ensures Lines() == old(Lines())
      ensures var free := a.entry.group == null || a.entry.group.state == Registered;
              var p := InitialPhase(a.entry.flags, free);
              && a.Now() == Start(p)
              && (a.entry.group != null ==>
                    a.entry.group.nProbing == old(a.entry.group.nProbing) + if p == Probing then 1 else 0)
    {
      GoToInitialState(a);
      SameLines();
    }

    method LinkAndStart(a: Announcer)
      requires Valid() && a !in anns && a.entry in entries && a.iface in interfaces && !a.entry.dead
      requires a.entry.group != null ==> a.entry.group in groups
      modifies this`anns, a.entry`announcers, a.iface`announcers
      modifies a`phase, a`n, a`secDelay, a`timer, a`probeLog, a`announceLog, GroupOf(a)`nProbing
      ensures Valid() && anns == old(anns) + {a}
      ensures Snapshot() == AddAll(old(Snapshot()), {a})
    {
      hide AddAll, LinksOk, Snapshot;
      Link(a);
      StartLinked(a);
      Joined(a);
    }

    method CreateAnnouncer(i: Interface, e: Entry) returns (a: Announcer)
      requires Valid() && i in interfaces && e in entries && !e.dead
      modifies this`anns, e`announcers, i`announcers, GroupsOf(e)`nProbing
      ensures Valid()
      ensures fresh(a) && a.entry == e && a.iface == i && anns == old(anns) + {a}
      ensures Snapshot() == AddAll(old(Snapshot()), {a})
    {
      hide AddAll;
      assert EntryOk(Lines(), anns, e);
      a := new Announcer(e, i);
      assert Snapshot() == old(Snapshot());
      assert Lines() == old(Lines());
      LinkAndStart(a);
    }

    // When new_announcer makes one: never a second for the same entry and interface.
    method NeedsAnnouncer(i: Interface, e: Entry) returns (b: bool)
      requires Valid() && i in interfaces && e in entries && !e.dead
      ensures b <==>
                && (e.index == -1 || e.index == i.index) && (e.protocol == -1 || e.protocol == i.protocol)
                && i.announcing && IsCommitted(e) && !Paired(anns, e, i)
    {
      if !e.Matches(i) || !i.announcing || !IsCommitted(e) {
        return false;
      }
      var r := GetAnnouncer(e, i);
      return r == null;
    }

    method NewAnnouncer(i: Interface, e: Entry) returns (ghost joined: set<Announcer>)
      requires Valid() && i in interfaces && e in entries && !e.dead
      modifies this`anns, e`announcers, i`announcers, GroupsOf(e)`nProbing
      ensures Valid()
      ensures fresh(joined) && old(anns) !! joined && anns == old(anns) + joined
      ensures Snapshot() == AddAll(old(Snapshot()), joined)
      ensures forall a :: a in joined ==> joined == {a} && a.entry == e && a.iface == i
      ensures joined != {} <==>
                && (e.index == -1 || e.index == i.index) && (e.protocol == -1 || e.protocol == i.protocol)
                && i.announcing && IsCommitted(e) && !Paired(old(anns), e, i)
    {
      hide AddAll, LinksOk, Snapshot, Paired;
      var needed := NeedsAnnouncer(i, e);
      if !needed {
        AddNothing(Snapshot());
        joined := {};
        return;
      }
      var a := CreateAnnouncer(i, e);
      joined := {a};
    }

    lemma EntryGroupKnown(e: Entry)
      requires Valid() && e in entries
      ensures GroupsOf(e) <= set g | g in groups
    {
      assert EntryOk(Lines(), anns, e);
    }

    // ------------------------------------------------------------ announcing interfaces and entries

    lemma SnapshotKeys()
      ensures Snapshot().anns.Keys == anns
      ensures forall g :: g in Snapshot().groups <==> g in groups
    {
    }

    // Joining keeps pairs apart when each newcomer had no announcer before it.
    lemma PairsStayApart(A: set<Announcer>, B: set<Announcer>, e: Entry, i: Interface)
      requires OnePerPair(A) && forall b :: b in B ==> B == {b} && b.entry == e && b.iface == i
      requires B != {} ==> !Paired(A, e, i)
      ensures OnePerPair(A + B)
    {
    }

    // The live entries an interface is to announce.
    ghost function Due(i: Interface): set<Entry>
      reads this`entries, this`groups, entries`dead, groups`state
    {
      set e | e in entries && !e.dead && e.Matches(i) &&
              (e.group == null || (e.group in groups && e.group.state in {Registering, Registered}))
    }

    lemma DueMeans(i: Interface, e: Entry)
      requires Valid() && e in entries
      ensures e in Due(i) <==> !e.dead && e.Matches(i) && IsCommitted(e)
    {
      EntryGroupKnown(e);
    }

    lemma DueIsListed(i: Interface)
      ensures forall e :: e in Due(i) ==> e in entries
    {
    }

    // The announcers that have joined were allowed to.
    lemma JoinIsEnabled(s: State, joined: set<Announcer>)
      requires Valid() && OnePerPair(anns) && Snapshot() == AddAll(s, joined)
      requires joined !! s.anns.Keys && anns == s.anns.Keys + joined
      requires forall a :: a in joined ==> a.entry in entries && IsCommitted(a.entry)
      ensures Enabled(s, Join(joined))
    {
      hide AddAll, LinksOk, Snapshot;
      AddKeepsGroupKeys(s, joined);
      forall a | a in joined ensures Committed(s, a) {
        EntryGroupKnown(a.entry);
        var g := a.entry.group;
        if g != null {
          GroupNow(g);
          AddedGroup(s, joined, g);
        }
      }
    }

    // avahi_announce_interface: an announcer for every live entry that matches.
    method AnnounceInterface(i: Interface) returns (ghost joined: set<Announcer>)
      requires Valid() && i in interfaces && OnePerPair(anns)
      modifies this`anns, entries`announcers, i`announcers, groups`nProbing
      ensures Valid() && OnePerPair(anns)
      ensures fresh(joined) && old(anns) !! joined && anns == old(anns) + joined
      ensures Snapshot() == AddAll(old(Snapshot()), joined)
      ensures forall a :: a in joined ==> i.announcing && a.iface == i && a.entry in Due(i)
      ensures i.announcing ==> forall e :: e in Due(i) ==> Paired(anns, e, i)
    {
      hide AddAll, LinksOk, Snapshot, Due;
      joined := {};
      ghost var s, due := Snapshot(), Due(i);
      SnapshotKeys();
      AddNothing(s);
      if !i.announcing {
        return;
      }
      for k := 0 to |entries|
        invariant Valid() && OnePerPair(anns)
        invariant old(anns) !! joined && anns == old(anns) + joined && fresh(joined)
        invariant Snapshot() == AddAll(s, joined)
        invariant forall a :: a in joined ==> a.iface == i && a.entry in due
        invariant forall j :: 0 <= j < k && entries[j] in due ==> Paired(anns, entries[j], i)
        invariant Due(i) == due
      {
        ghost var before, more: set<Announcer> := anns, {};
        DueMeans(i, entries[k]);
        EntryGroupKnown(entries[k]);
        if !entries[k].dead {
          more := NewAnnouncer(i, entries[k]);
        }
        PairsStayApart(before, more, entries[k], i);
        AddMore(s, joined, more);
        joined := joined + more;
      }
      DueIsListed(i);
    }

    // avahi_announce_entry: an announcer on every announcing interface that matches.
    method AnnounceEntry(e: Entry) returns (ghost joined: set<Announcer>)
      requires Valid() && e in entries && !e.dead && OnePerPair(anns)
      modifies this`anns, e`announcers, interfaces`announcers, GroupsOf(e)`nProbing
      ensures Valid() && OnePerPair(anns)
      ensures fresh(joined) && old(anns) !! joined && anns == old(anns) + joined
      ensures Snapshot() == AddAll(old(Snapshot()), joined)
      ensures forall a :: a in joined ==> a.entry == e && IsCommitted(e)
      ensures IsCommitted(e) ==> Covers(anns, e, interfaces)
    {
      hide AddAll, LinksOk, Snapshot;
      joined := {};
      ghost var s, committed := Snapshot(), IsCommitted(e);
      SnapshotKeys();
      AddNothing(s);
      for k := 0 to |interfaces|
        invariant Valid() && OnePerPair(anns)
        invariant old(anns) !! joined && anns == old(anns) + joined && fresh(joined)
        invariant Snapshot() == AddAll(s, joined)
        invariant IsCommitted(e) == committed
        invariant forall a :: a in joined ==> a.entry == e && committed
        invariant forall j :: 0 <= j < k && e.Matches(interfaces[j]) && interfaces[j].announcing && committed ==>
                    Paired(anns, e, interfaces[j])
      {
        if e.Matches(interfaces[k]) {
          ghost var before := anns;
          ghost var more := NewAnnouncer(interfaces[k], e);
          PairsStayApart(before, more, e, interfaces[k]);
          AddMore(s, joined, more);
          joined := joined + more;
        }
      }
    }

    // avahi_announce_group: every live entry of the group.
    method AnnounceGroup(g: Group) returns (ghost joined: set<Announcer>)
      requires Valid() && g in groups && OnePerPair(anns)
      modifies this`anns, g.entries`announcers, interfaces`announcers, g`nProbing
      ensures Valid() && OnePerPair(anns)
      ensures fresh(joined) && old(anns) !! joined && anns == old(anns) + joined
      ensures Snapshot() == AddAll(old(Snapshot()), joined)
      ensures forall a :: a in joined ==> InGroup(a, g) && IsCommitted(a.entry)
      ensures g.state in {Registering, Registered} ==> IsCovered(g)
    {
      hide AddAll, LinksOk, Snapshot, Covers;
      joined := {};
      ghost var s := Snapshot();
      SnapshotKeys();
      AddNothing(s);
      for k := 0 to |g.entries|
        invariant Valid() && OnePerPair(anns)
        invariant old(anns) !! joined && anns == old(anns) + joined && fresh(joined)
        invariant Snapshot() == AddAll(s, joined)
        invariant forall a :: a in joined ==> InGroup(a, g) && IsCommitted(a.entry)
        invariant g.state in {Registering, Registered} ==>
                    forall j :: 0 <= j < k && !g.entries[j].dead ==> Covers(anns, g.entries[j], interfaces)
      {
        GroupEntryKnown(g, g.entries[k]);
        if !g.entries[k].dead {
          ghost var before := anns;
          ghost var more := AnnounceEntry(g.entries[k]);
          StillCovers(before, g, k);
          AddMore(s, joined, more);
          joined := joined + more;
        }
      }
    }

    lemma StillCovers(A: set<Announcer>, g: Group, k: nat)
      requires A <= anns && k <= |g.entries|
      ensures forall j :: 0 <= j < k && Covers(A, g.entries[j], interfaces) ==> Covers(anns, g.entries[j], interfaces)
    {
      forall j | 0 <= j < k && Covers(A, g.entries[j], interfaces) ensures Covers(anns, g.entries[j], interfaces) {
        CoversMore(A, anns, g.entries[j], interfaces);
      }
    }

    // Every live entry of a group has its announcers.
    ghost predicate IsCovered(g: Group)
      reads this`anns, this`interfaces, interfaces`announcing, g`entries, g.entries`dead
    {
      forall e :: e in g.entries && !e.dead ==> Covers(anns, e, interfaces)
    }

    lemma GroupEntryKnown(g: Group, e: Entry)
      requires Valid() && g in groups && e in g.entries
      ensures e in entries && e.group == g
    {
      assert e in Lines().byGroup[g];
      assert e in Lines().byEntry;
    }

    // ------------------------------------------------------------ goodbyes

    // Unlinking an announcer from both its lists.
    method Unlink(a: Announcer)
      requires Valid() && a in anns
      modifies this`anns, a.entry`announcers, a.iface`announcers
      ensures Valid() && anns == old(anns) - {a}
      ensures forall b :: b in a.iface.announcers <==> b in old(a.iface.announcers) && b != a
      ensures forall b :: b in a.entry.announcers <==> b in old(a.entry.announcers) && b != a
    {
      hide LinksOk, Without;
      UnlinkOne(Lines(), anns, a);
      ghost var l := Lines();
      a.iface.announcers := Without(a.iface.announcers, a);
      a.entry.announcers := Without(a.entry.announcers, a);
      anns := anns - {a};
      assert Lines().byEntry == l.byEntry[a.entry := Without(l.byEntry[a.entry], a)];
      assert Lines().byInterface == l.byInterface[a.iface := Without(l.byInterface[a.iface], a)];
      assert Lines().byGroup == l.byGroup && Lines().dead == l.dead;
    }

    // An announcer has left; if it was probing, its group's ledger knows.
    twostate lemma Left(a: Announcer)
      requires a in old(anns) && anns == old(anns) - {a} && groups == old(groups)
      requires forall b :: b in anns ==> b.Now() == old(b.Now())
      requires forall h :: h in groups && h != a.entry.group ==> h.Now() == old(h.Now())
      requires var g := a.entry.group;
               g != null && g in groups ==> g.Now() == old(g.Now()).(
                 lost := old(g.lost) + if old(a.phase) == Probing then 1 else 0)
      ensures Snapshot() == RemoveAll(old(Snapshot()), {a})
    {
      hide RemoveAll;
      var s, t := old(Snapshot()), Snapshot();
      RemoveOne(s, a);
      assert t.anns == s.anns - {a};
      var g := a.entry.group;
      if g != null && g in groups {
        assert t.groups == s.groups[g := t.groups[g]];
      } else {
        assert t.groups == s.groups;
      }
    }

    // remove_announcer: the group counter is left alone, even for a probing announcer.
    method RemoveAnnouncer(a: Announcer)
      requires Valid() && a in anns
      modifies this`anns, a.entry`announcers, a.iface`announcers, a`timer, GroupOf(a)`lost
      ensures Valid() && anns == old(anns) - {a}
      ensures forall b :: b in a.iface.announcers <==> b in old(a.iface.announcers) && b != a
      ensures forall b :: b in a.entry.announcers <==> b in old(a.entry.announcers) && b != a
      ensures Snapshot() == RemoveAll(old(Snapshot()), {a})
    {
      hide RemoveAll, LinksOk;
      a.timer := Off;
      Unlink(a);
      if a.entry.group != null && a.phase == Probing {
        a.entry.group.lost := a.entry.group.lost + 1;
      }
      Left(a);
    }

    // The removal loop of avahi_goodbye_interface.
    method GoodbyeInterface(i: Interface)
      requires Valid() && i in interfaces
      modifies this`anns, entries`announcers, i`announcers, anns`timer, groups`lost
      ensures Valid() && i.announcers == []
      ensures anns == old(anns) - Elements(old(i.announcers))
      ensures Snapshot() == RemoveAll(old(Snapshot()), Elements(old(i.announcers)))
    {
      hide RemoveAll, LinksOk, Snapshot;
      ghost var s, all := Snapshot(), Elements(i.announcers);
      ghost var gone: set<Announcer> := {};
      RemoveNothing(s);
      while i.announcers != []
        invariant Valid()
        invariant anns == old(anns) - gone && gone !! Elements(i.announcers)
        invariant gone + Elements(i.announcers) == all
        invariant Snapshot() == RemoveAll(s, gone)
        decreases Elements(i.announcers)
      {
        var a := i.announcers[0];
        InterfaceKnown(i, a);
        RemoveMore(s, gone, {a});
        RemoveAnnouncer(a);
        gone := gone + {a};
      }
      assert gone == all;
    }

    // The removal loop of avahi_goodbye_entry.
    method GoodbyeEntry(e: Entry)
      requires Valid() && e in entries
      modifies this`anns, e`announcers, interfaces`announcers, anns`timer, GroupsOf(e)`lost
      ensures Valid() && e.announcers == []
      ensures anns == old(anns) - Elements(old(e.announcers))
      ensures Snapshot() == RemoveAll(old(Snapshot()), Elements(old(e.announcers)))
    {
      hide RemoveAll, LinksOk, Snapshot;
      ghost var s, all := Snapshot(), Elements(e.announcers);
      ghost var gone: set<Announcer> := {};
      RemoveNothing(s);
      while e.announcers != []
        invariant Valid()
        invariant anns == old(anns) - gone && gone !! Elements(e.announcers)
        invariant gone + Elements(e.announcers) == all
        invariant Snapshot() == RemoveAll(s, gone)
        decreases Elements(e.announcers)
      {
        var a := e.announcers[0];
        EntryKnown(e, a);
        RemoveMore(s, gone, {a});
        RemoveAnnouncer(a);
        gone := gone + {a};
      }
      assert gone == all;
    }

    lemma InterfaceKnown(i: Interface, a: Announcer)
      requires Valid() && i in interfaces && a in i.announcers
      ensures a in anns && a.iface == i && a.entry in entries && GroupOf(a) <= set g | g in groups
    {
      assert InterfaceOk(Lines(), anns, i);
      assert a.entry in Lines().byEntry;
      EntryGroupKnown(a.entry);
    }

    lemma EntryKnown(e: Entry, a: Announcer)
      requires Valid() && e in entries && a in e.announcers
      ensures a in anns && a.entry == e && a.iface in interfaces && GroupOf(a) <= set g | g in groups
    {
      assert EntryOk(Lines(), anns, e);
      assert a.iface in Lines().byInterface;
      EntryGroupKnown(e);
    }

    // ------------------------------------------------------------ restarts

    // reannounce: start over from where the announcer's phase allows.
    method ReannounceStep(a: Announcer)
      requires a.entry.group != null && a.phase == Probing ==> a.entry.group.nProbing > 0
      modifies a`phase, a`n, a`secDelay, a`timer, a`probeLog, a`announceLog, GroupOf(a)`nProbing
      ensures !IsCommitted(a.entry) ==> a.Now() == old(a.Now())
      ensures !IsCommitted(a.entry) ==> a.entry.group.nProbing == old(a.entry.group.nProbing)
      ensures IsCommitted(a.entry) ==> a.Now() == Start(ReannouncedPhase(old(a.phase), a.entry.flags))
      ensures IsCommitted(a.entry) && a.entry.group != null ==>
                a.entry.group.nProbing ==
                old(a.entry.group.nProbing) + if old(a.phase) == Waiting && a.entry.flags.Probes() then 1 else 0
    {
      var e := a.entry;
      if e.group != null && (e.group.state == Uncommitted || e.group.state == Collision) {
        return;
      }
      if a.phase == Probing && e.group != null {
        e.group.nProbing := e.group.nProbing - 1;
      }
      if a.phase == Probing || (a.phase == Waiting && e.flags.unique && !e.flags.noProbe) {
        a.phase := Probing;
      } else if a.phase == Waiting {
        a.phase := Waiting;
      } else if e.flags.noAnnounce {
        a.phase := Established;
      } else {
        a.phase := Announcing;
      }
      if a.phase == Probing && e.group != null {
        e.group.nProbing := e.group.nProbing + 1;
      }
      a.n, a.secDelay, a.probeLog, a.announceLog := 1, 1, [], [];
      SetFirstTimer(a);
    }

    method Reannounce(a: Announcer)
      requires CanFire(Snapshot(), a) && BarrierOk(Snapshot(), a)
      modifies a`phase, a`n, a`secDelay, a`timer, a`probeLog, a`announceLog, GroupOf(a)`nProbing
      ensures Lines() == old(Lines())
      ensures Snapshot() == ReannounceAll(old(Snapshot()), {a})
    {
      hide ReannounceAll, Start, ReannouncedPhase, CanFire, BarrierOk, Committed;
      ghost var s := Snapshot();
      CountedBefore(a);
      ReannounceOne(s, a);
      ReannounceLinked(a);
      OneViewAndGroup(a);
    }

    lemma CountedBefore(a: Announcer)
      requires CanFire(Snapshot(), a) && BarrierOk(Snapshot(), a)
      ensures a in anns && Snapshot().anns[a].phase == a.phase
      ensures Committed(Snapshot(), a) && IsCommitted(a.entry)
      ensures a.entry.group != null ==> a.entry.group in groups && (a.phase == Probing ==> a.entry.group.nProbing > 0)
    {
    }

    // Reannouncing leaves the lists alone.
    method ReannounceLinked(a: Announcer)
      requires IsCommitted(a.entry) && (a.entry.group != null && a.phase == Probing ==> a.entry.group.nProbing > 0)
      modifies a`phase, a`n, a`secDelay, a`timer, a`probeLog, a`announceLog, GroupOf(a)`nProbing
      ensures Lines() == old(Lines())
      ensures a.Now() == Start(ReannouncedPhase(old(a.phase), a.entry.flags))
      ensures a.entry.group != null ==>
                a.entry.group.nProbing ==
                old(a.entry.group.nProbing) + if old(a.phase) == Waiting && a.entry.flags.Probes() then 1 else 0
    {
      ReannounceStep(a);
      SameLines();
    }

    lemma ReadyToRestart(a: Announcer)
      requires Valid() && Inv(Snapshot()) && a in anns
      ensures CanFire(Snapshot(), a) && BarrierOk(Snapshot(), a)
      ensures GroupOf(a) <= set g | g in groups
      ensures forall b :: b in anns && b.entry == a.entry && b.iface == a.iface ==> b == a
    {
      FireReady(Snapshot(), a);
      assert AnnOk(Snapshot(), a);
      assert Snapshot().anns.Keys == anns;
      assert forall g :: g in Snapshot().groups ==> g in groups;
    }

    // The announcers of an entry on some interfaces.
    ghost function On(e: Entry, list: seq<Interface>): set<Announcer>
      reads this`anns
    {
      set a | a in anns && a.entry == e && a.iface in list && e.Matches(a.iface)
    }

    lemma OnOneMore(e: Entry, list: seq<Interface>, k: nat)
      requires k < |list| && NoDuplicates(list)
      ensures On(e, list[..k + 1]) == On(e, list[..k]) + On(e, [list[k]])
      ensures On(e, list[..k]) !! On(e, [list[k]])
      ensures !e.Matches(list[k]) ==> On(e, list[..k + 1]) == On(e, list[..k])
    {
      assert list[..k + 1] == list[..k] + [list[k]];
      assert list[k] !in list[..k];
    }

    lemma OnNone(e: Entry)
      ensures On(e, interfaces[..0]) == {}
    {
    }

    lemma OnThis(e: Entry, i: Interface, a: Announcer?)
      requires e.Matches(i)
      requires if a == null then !Paired(anns, e, i) else a in anns && a.entry == e && a.iface == i
      requires a != null ==> forall b :: b in anns && b.entry == e && b.iface == i ==> b == a
      ensures On(e, [i]) == if a == null then {} else {a}
    {
    }

    method ReannounceOn(e: Entry, i: Interface)
      requires Valid() && Inv(Snapshot()) && e in entries && i in interfaces && e.Matches(i)
      modifies anns`phase, anns`n, anns`secDelay, anns`timer, anns`probeLog, anns`announceLog, GroupsOf(e)`nProbing
      ensures Lines() == old(Lines()) && Inv(Snapshot())
      ensures Snapshot() == ReannounceAll(old(Snapshot()), On(e, [i]))
    {
      hide ReannounceAll, Inv, LinksOk, Snapshot, On, Paired;
      var a := GetAnnouncer(e, i);
      if a == null {
        OnThis(e, i, a);
        ReannounceNothing(Snapshot());
        return;
      }
      ReadyToRestart(a);
      OnThis(e, i, a);
      ReannounceKeepsInv(Snapshot(), {a});
      Reannounce(a);
    }

    // avahi_reannounce_entry: every announcer of the entry on a matching interface.
    method ReannounceEntry(e: Entry)
      requires Good() && e in entries
      modifies anns`phase, anns`n, anns`secDelay, anns`timer, anns`probeLog, anns`announceLog, GroupsOf(e)`nProbing
      modifies `states, `steps
      ensures Lines() == old(Lines()) && Took(old(states), old(steps), Step.Reannounce(On(e, interfaces)))
      ensures Snapshot() == ReannounceAll(old(Snapshot()), On(e, interfaces))
    {
      hide ReannounceAll, Inv, LinksOk, Snapshot, On, IsRun, Good, Took;
      GoodMeans();
      ghost var s := Snapshot();
      ReannounceNothing(s);
      OnNone(e);
      for k := 0 to |interfaces|
        invariant Lines() == old(Lines()) && Inv(Snapshot())
        invariant states == old(states) && steps == old(steps)
        invariant Snapshot() == ReannounceAll(s, On(e, interfaces[..k]))
      {
        OnOneMore(e, interfaces, k);
        if e.Matches(interfaces[k]) {
          ReannounceMore(s, On(e, interfaces[..k]), On(e, [interfaces[k]]));
          ReannounceOn(e, interfaces[k]);
        }
      }
      assert interfaces[..|interfaces|] == interfaces;
      Record(Step.Reannounce(On(e, interfaces)));
    }

    // avahi_entry_return_to_initial_state: after a conflict, start from the beginning.
    method ReturnToInitialState(e: Entry, i: Interface) returns (a: Announcer?)
      requires Good() && e in entries && i in interfaces
      modifies anns`phase, anns`n, anns`secDelay, anns`timer, anns`probeLog, anns`announceLog, GroupsOf(e)`nProbing
      modifies `states, `steps
      ensures Lines() == old(Lines()) && Good()
      ensures a == null <==> !Paired(anns, e, i)
      ensures a == null ==> Snapshot() == old(Snapshot()) && steps == old(steps) && states == old(states)
      ensures a != null ==> Took(old(states), old(steps), Conflict(a))
      ensures a != null ==> a in anns && a.entry == e && a.iface == i
      ensures a != null ==> CanFire(old(Snapshot()), a) && Snapshot() == Restart(old(Snapshot()), a)
    {
      hide Inv, LinksOk, Restart, Snapshot, CanFire, IsRun, Good, Took;
      GoodMeans();
      a := GetAnnouncer(e, i);
      if a == null {
        return;
      }
      ReadyToRestart(a);
      AnnouncerNow(a);
      RestartAnnouncer(a);
      Record(Conflict(a));
      TookIsGood(old(states), old(steps), Conflict(a));
    }

    method RestartStep(a: Announcer)
      requires a.entry.group != null && a.phase == Probing ==> a.entry.group.nProbing > 0
      modifies a`phase, a`n, a`secDelay, a`timer, a`probeLog, a`announceLog, GroupOf(a)`nProbing
      ensures var free := a.entry.group == null || a.entry.group.state == Registered;
              var p := InitialPhase(a.entry.flags, free);
              && a.Now() == Start(p)
              && (a.entry.group != null ==>
                    a.entry.group.nProbing == old(a.entry.group.nProbing)
                      - (if old(a.phase) == Probing then 1 else 0) + if p == Probing then 1 else 0)
      ensures Lines() == old(Lines())
    {
      if a.phase == Probing && a.entry.group != null {
        a.entry.group.nProbing := a.entry.group.nProbing - 1;
      }
      GoToInitialState(a);
      SameLines();
    }

    method RestartAnnouncer(a: Announcer)
      requires CanFire(Snapshot(), a) && GroupOf(a) <= set g | g in groups
      modifies a`phase, a`n, a`secDelay, a`timer, a`probeLog, a`announceLog, GroupOf(a)`nProbing
      ensures Lines() == old(Lines())
      ensures CanFire(old(Snapshot()), a) && Snapshot() == Restart(old(Snapshot()), a)
    {
      ghost var s := Snapshot();
      assert s.anns[a].phase == a.phase;
      RestartStep(a);
      OneViewAndGroup(a);
    }

    // ------------------------------------------------------------ groups

    method BeginRegistering(g: Group)
      requires g in groups
      modifies g`state, g`registerTimer
      ensures Lines() == old(Lines()) && g.state == Registering
      ensures var s := old(Snapshot());
              Snapshot() == s.(groups := s.groups[g := s.groups[g].(state := Registering, registerTimer := false)])
    {
      ghost var s := Snapshot();
      g.registerTimer := false;
      ChangeState(g, Registering);
      SameLines();
      assert Snapshot().anns == s.anns;
      assert Snapshot().groups == s.groups[g := s.groups[g].(state := Registering, registerTimer := false)];
    }

    method CheckGroup(g: Group)
      requires Valid() && g in groups
      modifies anns`phase, anns`n, anns`secDelay, anns`timer, anns`probeLog, anns`announceLog
      modifies groups`state, groups`nProbing, groups`registerTimer
      ensures Lines() == old(Lines())
      ensures Snapshot() == AnnouncerProtocol.CheckProbed(old(Snapshot()), g, false)
    {
      hide LinksOk, AnnouncerProtocol.CheckProbed;
      ValidLists(g);
      CheckProbed(g, false);
      SameLines();
    }

    // entry_group_commit_real: register, announce every entry, and check at once.
    method CommitReal(g: Group) returns (ghost joined: set<Announcer>)
      requires Valid() && OnePerPair(anns) && g in groups
      modifies this`anns, g.entries`announcers, interfaces`announcers
      modifies anns`phase, anns`n, anns`secDelay, anns`timer, anns`probeLog, anns`announceLog
      modifies groups`state, groups`nProbing, groups`registerTimer
      ensures Valid() && OnePerPair(anns)
      ensures fresh(joined) && old(anns) !! joined && anns == old(anns) + joined
      ensures forall a :: a in joined ==> InGroup(a, g)
      ensures IsCovered(g) && IsSettled(g)
      ensures Snapshot() == Commit(old(Snapshot()), g, joined)
    {
      hide AddAll, AnnouncerProtocol.CheckProbed, LinksOk, Snapshot, IsCovered;
      ghost var s := Snapshot();
      GroupNow(g);
      BeginRegistering(g);
      joined := AnnounceGroup(g);
      CheckGroup(g);
      CommitState(s, g, joined);
      GroupIsNow(g);
    }

    // After the first check a group is registered exactly if nothing is left to probe.
    ghost predicate IsSettled(g: Group)
      reads g
    {
      g.state == (if g.nProbing == 0 then Registered else Registering) && !g.registerTimer
    }

    // The real commit as a step: from outside a committed group, or after its holdoff.
    method CommitNow(g: Group) returns (ghost joined: set<Announcer>)
      requires Good() && g in groups && (g.state in {Uncommitted, Collision} || g.registerTimer)
      modifies this`anns, g.entries`announcers, interfaces`announcers
      modifies anns`phase, anns`n, anns`secDelay, anns`timer, anns`probeLog, anns`announceLog
      modifies groups`state, groups`nProbing, groups`registerTimer, `states, `steps
      ensures fresh(joined) && old(anns) !! joined && anns == old(anns) + joined
      ensures forall a :: a in joined ==> InGroup(a, g)
      ensures Good() && IsCovered(g) && IsSettled(g) && Took(old(states), old(steps), RealCommit(g, joined))
    {
      hide Commit, Inv, LinksOk, IsCovered, IsRun, Snapshot, Good, Took;
      GoodMeans();
      GroupNow(g);
      SnapshotKeys();
      joined := CommitReal(g);
      SnapshotKeys();
      Record(RealCommit(g, joined));
      TookIsGood(old(states), old(steps), RealCommit(g, joined));
    }

    method HoldNow(g: Group)
      requires Good() && g in groups && g.state in {Uncommitted, Collision}
      modifies g`state, g`registerTimer, `states, `steps
      ensures Good() && Took(old(states), old(steps), HoldCommit(g)) && g.state == Registering && g.registerTimer
    {
      hide Hold, Inv, LinksOk, IsRun, Snapshot, Good, Took;
      GoodMeans();
      GroupNow(g);
      NoTimerYet(g);
      HoldGroup(g);
      Record(HoldCommit(g));
      TookIsGood(old(states), old(steps), HoldCommit(g));
    }

    lemma NoTimerYet(g: Group)
      requires Inv(Snapshot()) && g in groups
      ensures g.registerTimer ==> g.state == Registering
    {
      assert GroupOk(Snapshot(), g);
    }

    // avahi_s_entry_group_commit: at once, or after the holdoff has passed. It asserts that
    // no register timer is set yet.
    method CommitGroup(g: Group, holdoffPassed: bool) returns (ok: bool, ghost joined: set<Announcer>)
      requires Good() && g in groups
      modifies this`anns, g.entries`announcers, interfaces`announcers
      modifies anns`phase, anns`n, anns`secDelay, anns`timer, anns`probeLog, anns`announceLog
      modifies groups`state, groups`nProbing, groups`registerTimer, `states, `steps
      ensures Good()
      ensures ok <==> old(g.state) in {Uncommitted, Collision} && exists e :: e in g.entries && !e.dead
      ensures fresh(joined) && old(anns) !! joined && anns == old(anns) + joined
      ensures forall a :: a in joined ==> InGroup(a, g)
      ensures ok && holdoffPassed ==> IsCovered(g) && IsSettled(g) && Took(old(states), old(steps), RealCommit(g, joined))
      ensures ok && !holdoffPassed ==>
                joined == {} && g.state == Registering && g.registerTimer && Took(old(states), old(steps), HoldCommit(g))
      ensures !ok ==> joined == {} && Snapshot() == old(Snapshot()) && steps == old(steps) && states == old(states)
    {
      hide Good, Took, IsCovered, Snapshot;
      joined := {};
      if g.state != Uncommitted && g.state != Collision {
        return false, {};
      }
      var empty := IsEmpty(g);
      if empty {
        return false, {};
      }
      ok := true;
      ghost var e :| e in g.entries && !e.dead;
      if holdoffPassed {
        joined := CommitNow(g);
      } else {
        HoldNow(g);
      }
      assert e in g.entries && !e.dead;
    }

    // entry_group_register_time_event_callback: the holdoff has passed.
    method HoldoffElapsed(g: Group) returns (ghost joined: set<Announcer>)
      requires Good() && g in groups && g.registerTimer
      modifies this`anns, g.entries`announcers, interfaces`announcers
      modifies anns`phase, anns`n, anns`secDelay, anns`timer, anns`probeLog, anns`announceLog
      modifies groups`state, groups`nProbing, groups`registerTimer, `states, `steps
      ensures fresh(joined) && old(anns) !! joined && anns == old(anns) + joined
      ensures forall a :: a in joined ==> InGroup(a, g)
      ensures IsCovered(g) && IsSettled(g) && Took(old(states), old(steps), RealCommit(g, joined))
    {
      hide Good, Took, IsCovered;
      joined := CommitNow(g);
    }

    lemma PairsApart()
      requires Inv(Snapshot())
      ensures OnePerPair(anns)
    {
      assert Snapshot().anns.Keys == anns;
    }

    method HoldGroup(g: Group)
      requires g in groups && g.state != Registering && !g.registerTimer
      modifies g`state, g`registerTimer
      ensures Lines() == old(Lines()) && g.state == Registering && g.registerTimer
      ensures Snapshot() == Hold(old(Snapshot()), g)
    {
      ghost var s := Snapshot();
      g.registerTimer := true;
      ChangeState(g, Registering);
      SameLines();
      assert Snapshot().anns == s.anns;
      assert Snapshot().groups == Hold(s, g).groups;
    }

    method IsEmpty(g: Group) returns (r: bool)
      ensures r <==> forall e :: e in g.entries ==> e.dead
    {
      for k := 0 to |g.entries|
        invariant forall j :: 0 <= j < k ==> g.entries[j].dead
      {
        if !g.entries[k].dead {
          return false;
        }
      }
      return true;
    }

    // Saying goodbye to an entry for good.
    method BuryEntry(e: Entry)
      requires Valid() && e in entries
      modifies this`anns, e`announcers, e`dead, interfaces`announcers, anns`timer, GroupsOf(e)`lost
      ensures Valid() && e.announcers == [] && e.dead
      ensures anns == old(anns) - Elements(old(e.announcers))
      ensures Snapshot() == RemoveAll(old(Snapshot()), Elements(old(e.announcers)))
    {
      hide RemoveAll, LinksOk, Snapshot;
      if e.dead {
        DeadHasNone(e);
        RemoveNothing(Snapshot());
        return;
      }
      GoodbyeEntry(e);
      MarkDead(Lines(), anns, e);
      Kill(e);
    }

    method Kill(e: Entry)
      requires e in entries
      modifies e`dead
      ensures e.dead
      ensures Lines() == old(Lines()).(dead := old(Lines()).dead + {e})
      ensures Snapshot() == old(Snapshot())
    {
      ghost var l := Lines();
      e.dead := true;
      assert Lines().byEntry == l.byEntry && Lines().byInterface == l.byInterface && Lines().byGroup == l.byGroup;
      assert Lines().dead == l.dead + {e};
    }

    lemma DeadHasNone(e: Entry)
      requires Valid() && e in entries && e.dead
      ensures e.announcers == [] && Elements(e.announcers) == {}
    {
      assert EntryOk(Lines(), anns, e);
    }

    method BuryEntries(g: Group)
      requires Valid() && g in groups
      modifies this`anns, entries`announcers, entries`dead, interfaces`announcers, anns`timer, g`lost
      ensures Valid() && anns == old(anns) - MembersOf(old(anns), g)
      ensures forall e :: e in entries ==> (e.dead <==> old(e.dead) || e.group == g)
      ensures Snapshot() == RemoveAll(old(Snapshot()), MembersOf(old(anns), g))
    {
      hide RemoveAll, LinksOk, Snapshot;
      ghost var s, all := Snapshot(), MembersOf(anns, g);
      ghost var gone: set<Announcer> := {};
      RemoveNothing(s);
      for k := 0 to |g.entries|
        invariant Valid() && gone <= all && anns == old(anns) - gone
        invariant Snapshot() == RemoveAll(s, gone)
        invariant forall j, a :: 0 <= j < k && a in anns ==> a.entry != g.entries[j]
        invariant forall e :: e in entries ==> (e.dead <==> old(e.dead) || e in g.entries[..k])
      {
        var e := g.entries[k];
        GroupEntryKnown(g, e);
        ghost var more := Elements(e.announcers);
        EntryElements(e);
        RemoveMore(s, gone, more);
        BuryEntry(e);
        gone := gone + more;
      }
      MembersAreListed(g);
      EntriesAreListed(g);
      assert gone == all;
    }

    lemma EntryElements(e: Entry)
      requires Valid() && e in entries
      ensures forall a :: a in Elements(e.announcers) <==> a in anns && a.entry == e
    {
      assert EntryOk(Lines(), anns, e);
    }

    lemma EntriesAreListed(g: Group)
      requires Valid() && g in groups
      ensures forall e :: e in entries ==> (e.group == g <==> e in g.entries)
    {
      forall e | e in entries ensures e.group == g <==> e in g.entries {
        assert EntryOk(Lines(), anns, e);
        if e in g.entries {
          GroupEntryKnown(g, e);
        }
      }
    }

    lemma MembersAreListed(g: Group)
      requires Valid() && g in groups
      ensures forall a :: a in MembersOf(anns, g) ==> a.entry in g.entries
    {
      ValidLists(g);
    }

    method Forget(g: Group, target: GroupState)
      requires g in groups && target in {Uncommitted, Collision} && (g.registerTimer ==> g.state == Registering)
      modifies g`lost, g`nProbing, g`state, g`registerTimer
      ensures Lines() == old(Lines()) && IsEmptied(g, target)
      ensures var s := old(Snapshot()); Snapshot() == s.(groups := s.groups[g := GroupView(target, 0, false, 0)])
    {
      ghost var s := Snapshot();
      g.nProbing, g.lost := 0, 0;
      ChangeState(g, target);
      SameLines();
      assert Snapshot().anns == s.anns;
      assert Snapshot().groups == s.groups[g := GroupView(target, 0, false, 0)];
    }

    ghost predicate IsEmptied(g: Group, target: GroupState)
      reads g
    {
      g.state == target && g.nProbing == 0 && !g.registerTimer
    }

    // Withdrawing or resetting a group: no announcers, no probes pending, a new state.
    method DropGroup(g: Group, target: GroupState)
      requires Valid() && g in groups && target in {Uncommitted, Collision}
      requires g.registerTimer ==> g.state == Registering
      modifies this`anns, entries`announcers, entries`dead, interfaces`announcers, anns`timer
      modifies g`lost, g`nProbing, g`state, g`registerTimer
      ensures Valid() && Snapshot() == Drop(old(Snapshot()), g, target)
      ensures IsEmptied(g, target) && anns == old(anns) - MembersOf(old(anns), g)
      ensures forall e :: e in entries ==> (e.dead <==> old(e.dead) || e.group == g)
    {
      hide RemoveAll, LinksOk, Drop, Snapshot;
      SnapshotKeys();
      DropIsRemove(Snapshot(), g, target);
      BuryEntries(g);
      Forget(g, target);
    }

    // avahi_s_entry_group_reset
    method ResetGroup(g: Group)
      requires Good() && g in groups
      modifies this`anns, entries`announcers, entries`dead, interfaces`announcers, anns`timer
      modifies g`lost, g`nProbing, g`state, g`registerTimer, `states, `steps
      ensures Took(old(states), old(steps), Abandon(g, Uncommitted))
      ensures Snapshot() == Drop(old(Snapshot()), g, Uncommitted)
      ensures IsEmptied(g, Uncommitted) && anns == old(anns) - MembersOf(old(anns), g)
      ensures forall e :: e in entries ==> (e.dead <==> old(e.dead) || e.group == g)
    {
      hide Drop, Inv, LinksOk, IsRun, Snapshot, Good, Took, IsEmptied, MembersOf;
      GoodMeans();
      NoTimerYet(g);
      GroupNow(g);
      DropGroup(g, Uncommitted);
      Record(Abandon(g, Uncommitted));
    }

    // What withdrawing an entry is for the protocol.
    ghost function Withdrawal(e: Entry): Step
      reads e
    {
      if e.group == null then Leave(Elements(e.announcers)) else Abandon(e.group, Collision)
    }

    // withdraw_entry: a lost conflict takes the whole group down, or the entry alone.
    method WithdrawEntry(e: Entry)
      requires Good() && e in entries
      modifies this`anns, entries`announcers, entries`dead, interfaces`announcers, anns`timer
      modifies GroupsOf(e)`lost, GroupsOf(e)`nProbing, GroupsOf(e)`state, GroupsOf(e)`registerTimer, `states, `steps
      ensures Good()
      ensures old(e.dead) ==> Snapshot() == old(Snapshot()) && steps == old(steps) && states == old(states)
      ensures !old(e.dead) ==> Took(old(states), old(steps), old(Withdrawal(e)))
      ensures !old(e.dead) && e.group != null ==> IsEmptied(e.group, Collision)
      ensures !old(e.dead) ==>
                anns == old(anns) - if e.group == null then old(Elements(e.announcers)) else MembersOf(old(anns), e.group)
      ensures forall f :: f in entries ==>
                (f.dead <==> old(f.dead) || f == e || (!old(e.dead) && e.group != null && f.group == e.group))
    {
      hide RemoveAll, LinksOk, Drop, Inv, IsRun, Snapshot, Good, Took, IsEmptied, MembersOf, Elements;
      GoodMeans();
      ghost var step := Withdrawal(e);
      if e.dead {
        return;
      }
      if e.group != null {
        EntryGroupKnown(e);
        NoTimerYet(e.group);
        GroupNow(e.group);
        DropGroup(e.group, Collision);
      } else {
        BuryEntry(e);
      }
      Record(step);
      TookIsGood(old(states), old(steps), step);
    }

    // ------------------------------------------------------------ interfaces, groups and entries

    method NewGroup() returns (g: Group)
      requires Good()
      modifies `groups, `states, `steps
      ensures fresh(g) && Took(old(states), old(steps), Step.NewGroup(g))
      ensures var s := old(Snapshot());
              g !in s.groups && Snapshot() == s.(groups := s.groups[g := GroupView(Uncommitted, 0, false, 0)])
    {
      hide LinksOk, Inv, IsRun, Snapshot, Good, Took;
      GoodMeans();
      g := EnterGroup();
      Record(Step.NewGroup(g));
    }

    method EnterGroup() returns (g: Group)
      requires Valid()
      modifies `groups
      ensures Valid() && fresh(g)
      ensures var s := old(Snapshot());
              g !in s.groups && Snapshot() == s.(groups := s.groups[g := GroupView(Uncommitted, 0, false, 0)])
    {
      hide LinksOk;
      ghost var s, l := Snapshot(), Lines();
      g := new Group();
      groups := [g] + groups;
      NewGroupLinks(l, anns, g);
      assert Lines().byGroup == l.byGroup[g := []];
      assert Lines().byEntry == l.byEntry && Lines().byInterface == l.byInterface && Lines().dead == l.dead;
      assert Snapshot().anns == s.anns;
      assert Snapshot().groups == s.groups[g := GroupView(Uncommitted, 0, false, 0)];
    }

    // server_add_internal, once the record has passed its checks: not into a committed group;
    // announced at once if it has none.
    method AddEntry(flags: Flags, g: Group?, index: int, protocol: int) returns (e: Entry?, ghost joined: set<Announcer>)
      requires Good() && (g != null ==> g in groups)
      modifies this`entries, this`anns, interfaces`announcers, `states, `steps
      modifies (if g == null then {} else {g})`entries, (if g == null then {} else {g})`nProbing
      ensures fresh(joined) && old(anns) !! joined && anns == old(anns) + joined
      ensures e == null <==> g != null && g.state in {Registering, Registered}
      ensures e == null ==> Snapshot() == old(Snapshot()) && steps == old(steps) && states == old(states) && Good()
      ensures e != null ==> Took(old(states), old(steps), Join(joined))
      ensures e != null ==> fresh(e) && entries == [e] + old(entries) && !e.dead
      ensures e != null ==> e.flags == flags && e.group == g && e.index == index && e.protocol == protocol
      ensures forall a :: a in joined ==> a.entry == e
      ensures g == null ==> Covers(anns, e, interfaces)
      ensures g != null ==> joined == {}
    {
      hide AddAll, LinksOk, Inv, IsRun, Snapshot, Good, Took, Covers;
      GoodMeans();
      SnapshotKeys();
      joined := {};
      if g != null && (g.state == Registering || g.state == Registered) {
        return null, {};
      }
      ghost var s := Snapshot();
      e := LinkEntry(flags, g, index, protocol);
      joined := AnnounceEntry(e);
      JoinIsEnabled(s, joined);
      Record(Join(joined));
    }

    method LinkEntry(flags: Flags, g: Group?, index: int, protocol: int) returns (e: Entry)
      requires Valid() && (g != null ==> g in groups)
      modifies this`entries, (if g == null then {} else {g})`entries
      ensures Valid() && fresh(e) && entries == [e] + old(entries)
      ensures e.flags == flags && e.group == g && e.index == index && e.protocol == protocol
      ensures !e.dead && e.announcers == [] && Snapshot() == old(Snapshot())
    {
      hide LinksOk, Snapshot, Lines;
      e := new Entry(flags, g, index, protocol);
      NotYetListed(e);
      EnterOne(Lines(), anns, e);
      EnterEntry(e);
    }

    lemma NotYetListed(e: Entry)
      ensures e !in entries ==> e !in Lines().byEntry && e !in Lines().dead
      ensures forall g :: g in groups ==> g in Lines().byGroup
    {
    }

    method EnterEntry(e: Entry)
      requires e !in entries && !e.dead && e.announcers == [] && (e.group != null ==> e.group in groups)
      modifies this`entries, GroupsOf(e)`entries
      ensures entries == [e] + old(entries)
      ensures var l := old(Lines());
              Lines() == l.(byEntry := l.byEntry[e := []],
                            byGroup := if e.group == null then l.byGroup
                                       else l.byGroup[e.group := [e] + l.byGroup[e.group]])
    {
      ghost var l := Lines();
      entries := [e] + entries;
      if e.group != null {
        e.group.entries := [e] + e.group.entries;
        assert Lines().byGroup == l.byGroup[e.group := [e] + l.byGroup[e.group]];
      } else {
        assert Lines().byGroup == l.byGroup;
      }
      assert Lines().byEntry == l.byEntry[e := []] && Lines().byInterface == l.byInterface && Lines().dead == l.dead;
    }

    // avahi_interface_new: an interface that does not announce yet.
    method NewInterface(index: nat, protocol: nat) returns (i: Interface)
      requires Good()
      modifies this`interfaces
      ensures Good() && fresh(i) && interfaces == [i] + old(interfaces)
      ensures i.index == index && i.protocol == protocol && !i.announcing && i.announcers == []
      ensures Snapshot() == old(Snapshot())
    {
      hide LinksOk;
      ghost var l := Lines();
      i := new Interface(index, protocol);
      interfaces := [i] + interfaces;
      NewInterfaceLinks(l, anns, i);
      assert Lines().byInterface == l.byInterface[i := []];
      assert Lines().byEntry == l.byEntry && Lines().byGroup == l.byGroup && Lines().dead == l.dead;
    }

    // avahi_interface_free: once its announcers are gone, which is asserted, an interface
    // leaves the list.
    method FreeInterface(i: Interface)
      requires Good() && i in interfaces
      modifies this`interfaces, this`anns, entries`announcers, i`announcers, anns`timer, groups`lost, `states, `steps
      ensures i.announcers == [] && Took(old(states), old(steps), Leave(Elements(old(i.announcers))))
      ensures forall j :: j in interfaces <==> j in old(interfaces) && j != i
    {
      hide RemoveAll, LinksOk, Snapshot, Inv, IsRun, Good, Took;
      GoodMeans();
      ghost var gone := Elements(i.announcers);
      GoodbyeInterface(i);
      FreeInterfaceLinks(Lines(), anns, i);
      DelistInterface(i);
      Record(Leave(gone));
    }

    method DelistInterface(i: Interface)
      requires NoDuplicates(interfaces) && i in interfaces
      modifies this`interfaces
      ensures NoDuplicates(interfaces) && forall j :: j in interfaces <==> j in old(interfaces) && j != i
      ensures Lines() == old(Lines()).(byInterface := old(Lines()).byInterface - {i})
    {
      hide Without;
      ghost var l := Lines();
      interfaces := Without(interfaces, i);
      assert Lines().byInterface == l.byInterface - {i};
      assert Lines().byEntry == l.byEntry && Lines().byGroup == l.byGroup && Lines().dead == l.dead;
    }

    // avahi_interface_check_relevant: an interface starts or stops announcing.
    method InterfaceUp(i: Interface) returns (ghost joined: set<Announcer>)
      requires Good() && i in interfaces && !i.announcing
      modifies this`anns, entries`announcers, i`announcers, i`announcing, groups`nProbing, `states, `steps
      ensures i.announcing && Took(old(states), old(steps), Join(joined))
      ensures fresh(joined) && old(anns) !! joined && anns == old(anns) + joined
      ensures forall a :: a in joined ==> a.iface == i && a.entry in Due(i)
      ensures forall e :: e in Due(i) ==> Paired(anns, e, i)
    {
      hide AddAll, LinksOk, Due, Inv, IsRun, Snapshot, Good, Took, Paired;
      GoodMeans();
      SnapshotKeys();
      ghost var s := Snapshot();
      i.announcing := true;
      joined := AnnounceInterface(i);
      forall a | a in joined ensures a.entry in entries && IsCommitted(a.entry) {
        DueIsListed(i);
        DueMeans(i, a.entry);
      }
      JoinIsEnabled(s, joined);
      Record(Join(joined));
    }

    method InterfaceDown(i: Interface)
      requires Good() && i in interfaces && i.announcing
      modifies this`anns, entries`announcers, i`announcers, i`announcing, anns`timer, groups`lost, `states, `steps
      ensures i.announcers == [] && !i.announcing && Took(old(states), old(steps), Leave(Elements(old(i.announcers))))
    {
      hide RemoveAll, LinksOk, Inv, IsRun, Snapshot, Good, Took;
      GoodMeans();
      ghost var gone := Elements(i.announcers);
      GoodbyeInterface(i);
      i.announcing := false;
      Record(Leave(gone));
    }
  }
}
