/**
 The announcer protocol as a state machine over values: what each entry point
 does to the views of all announcers and groups, the invariant every step keeps,
 and what follows for whole runs.
 */
module AnnouncerProtocol {
  import opened AnnouncerTypes

  datatype State = State(anns: map<Announcer, View>, groups: map<Group, GroupView>)

  // ---------------------------------------------------------------- steps

  ghost predicate InGroup(a: Announcer, g: Group) {
    a.entry.group == g
  }

  ghost function MembersOf(A: set<Announcer>, g: Group): set<Announcer> {
    set a | a in A && InGroup(a, g)
  }

  ghost function ProbingIn(anns: map<Announcer, View>, g: Group): set<Announcer> {
    set a | a in anns && InGroup(a, g) && anns[a].phase == Probing
  }

  // A record without a group, or in a registered group, need not wait for others.
  ghost predicate Free(s: State, a: Announcer) {
    var g := a.entry.group;
    g == null || (g in s.groups && s.groups[g].state == Registered)
  }

  ghost predicate Committed(s: State, a: Announcer) {
    var g := a.entry.group;
    g == null || (g in s.groups && s.groups[g].state in {Registering, Registered})
  }

  // Entering a phase from the start: first iteration, first delay, jitter only.
  function Start(p: Phase): View {
    match p
    case Probing => View(p, 1, 1, After(0, 250), [Arm(0)], [])
    case Announcing => View(p, 1, 1, After(0, 250), [], [Arm(0)])
    case _ => View(p, 1, 1, Off, [], [])
  }

  function InitialPhase(f: Flags, free: bool): Phase {
    if f.Probes() then Probing
    else if !f.noAnnounce then (if free then Announcing else Waiting)
    else Established
  }

  function ReannouncedPhase(p: Phase, f: Flags): Phase {
    if p == Probing || (p == Waiting && f.Probes()) then Probing
    else if p == Waiting then Waiting
    else if f.noAnnounce then Established
    else Announcing
  }

  // One announcement: three in all, or four when the count starts from zero.
  function AnnounceStep(v: View): View {
    var w := v.(n := v.n + 1, announceLog := v.announceLog + [Announce]);
    if w.n >= 4 then w.(phase := Established, timer := Off)
    else w.(timer := After(v.secDelay * 1000, 250), secDelay := v.secDelay * 2,
            announceLog := w.announceLog + [Arm(v.secDelay * 1000)])
  }

  function ProbeStep(v: View): View {
    v.(n := v.n + 1, timer := After(250, 0), probeLog := v.probeLog + [Probe, Arm(250)])
  }

  // Leaving the barrier, at once or after a jittered delay.
  function Release(v: View, immediately: bool): View {
    if v.phase != Waiting then v
    else if immediately then AnnounceStep(v.(phase := Announcing, n := 1))
    else v.(phase := Announcing, n := 0, timer := After(0, 250), announceLog := v.announceLog + [Arm(0)])
  }

  ghost function ReleaseAll(anns: map<Announcer, View>, A: set<Announcer>, immediately: bool): map<Announcer, View> {
    map a | a in anns :: if a in A then Release(anns[a], immediately) else anns[a]
  }

  lemma ReleaseJust(anns: map<Announcer, View>, a: Announcer, immediately: bool)
    requires a in anns
    ensures ReleaseAll(anns, {a}, immediately) == anns[a := Release(anns[a], immediately)]
    ensures anns[a := anns[a]] == anns
  {
  }

  // Releasing twice is releasing once.
  lemma ReleaseMore(anns: map<Announcer, View>, A: set<Announcer>, B: set<Announcer>, immediately: bool)
    ensures ReleaseAll(ReleaseAll(anns, A, immediately), B, immediately) == ReleaseAll(anns, A + B, immediately)
  {
  }

  ghost function CheckProbed(s: State, g: Group, immediately: bool): State
    requires g in s.groups
  {
    var v := s.groups[g];
    if v.state != Registering || v.nProbing > 0 then s
    else State(ReleaseAll(s.anns, MembersOf(s.anns.Keys, g), immediately),
               s.groups[g := v.(state := Registered, registerTimer := false)])
  }

  // A probing announcer that has sent its last probe leaves the counter; it will
  // join the barrier if its group is registering, and announce otherwise.
  ghost function LeaveCounter(s: State, a: Announcer): State
    requires CanFire(s, a) && s.anns[a].phase == Probing
  {
    var g := a.entry.group;
    var v := s.anns[a].(timer := Off);
    State(
      s.anns[a := if g != null && s.groups[g].state == Registering then v.(phase := Waiting)
                  else v.(phase := Announcing, n := 1)],
      if g == null then s.groups
      else s.groups[g := s.groups[g].(nProbing := s.groups[g].nProbing - 1)])
  }

  ghost function ProbingDone(s: State, a: Announcer): State
    requires CanFire(s, a) && s.anns[a].phase == Probing
  {
    var t := LeaveCounter(s, a);
    if t.anns[a].phase == Waiting then CheckProbed(t, a.entry.group, true)
    else t.(anns := t.anns[a := AnnounceStep(t.anns[a])])
  }

  ghost predicate CanFire(s: State, a: Announcer) {
    && a in s.anns
    && (s.anns[a].phase == Probing && a.entry.group != null ==>
          a.entry.group in s.groups && s.groups[a.entry.group].nProbing > 0)
    && (s.anns[a].phase == Waiting ==> a.entry.group != null && a.entry.group in s.groups)
  }

  // The announcer's timer elapses.
  ghost function Fire(s: State, a: Announcer): State
    requires CanFire(s, a)
  {
    var v := s.anns[a];
    match v.phase
    case Waiting => CheckProbed(s, a.entry.group, true)
    case Probing => if v.n >= 4 then ProbingDone(s, a) else s.(anns := s.anns[a := ProbeStep(v)])
    case Announcing => s.(anns := s.anns[a := AnnounceStep(v)])
    case Established => s
  }

  ghost function Probers(A: set<Announcer>, g: Group): set<Announcer> {
    set a | a in A && InGroup(a, g) && a.entry.flags.Probes()
  }

  // The cases of a timer step; finishing to probe is leaving the counter and going on.
  lemma FireCases(s: State, a: Announcer)
    requires CanFire(s, a)
    ensures var v := s.anns[a];
            match v.phase
            case Waiting => Fire(s, a) == CheckProbed(s, a.entry.group, true)
            case Probing =>
              if v.n >= 4 then CanFire(LeaveCounter(s, a), a) && Fire(s, a) == Fire(LeaveCounter(s, a), a)
              else Fire(s, a) == s.(anns := s.anns[a := ProbeStep(v)])
            case Announcing => Fire(s, a) == s.(anns := s.anns[a := AnnounceStep(v)])
            case Established => Fire(s, a) == s
  {
  }

  lemma FireAnnouncing(s: State, a: Announcer, v: View)
    requires a in s.anns && v.phase == Announcing
    ensures var t := s.(anns := s.anns[a := v]);
            CanFire(t, a) && Fire(t, a) == s.(anns := s.anns[a := AnnounceStep(v)])
  {
    assert s.anns[a := v][a := AnnounceStep(v)] == s.anns[a := AnnounceStep(v)];
  }

  // New announcers for the pairs in A.
  ghost function AddAll(s: State, A: set<Announcer>): State {
    State(
      map a | a in s.anns.Keys + A ::
        if a in A then Start(InitialPhase(a.entry.flags, Free(s, a))) else s.anns[a],
      map g | g in s.groups :: s.groups[g].(
        nProbing := s.groups[g].nProbing + |Probers(A, g)|))
  }

  lemma AddNothing(s: State)
    ensures AddAll(s, {}) == s
  {
    assert AddAll(s, {}).anns == s.anns;
    forall g | g in s.groups ensures AddAll(s, {}).groups[g] == s.groups[g] {
      assert Probers({}, g) == {};
    }
    assert AddAll(s, {}).groups == s.groups;
  }

  // Adding in two turns is adding at once: committing is not affected by joining.
  lemma AddMore(s: State, A: set<Announcer>, B: set<Announcer>)
    requires A !! s.anns.Keys && B !! s.anns.Keys && A !! B
    ensures AddAll(AddAll(s, A), B) == AddAll(s, A + B)
  {
    AddMoreAnns(s, A, B);
    AddMoreGroups(s, A, B);
  }

  lemma AddMoreAnns(s: State, A: set<Announcer>, B: set<Announcer>)
    requires A !! B
    ensures AddAll(AddAll(s, A), B).anns == AddAll(s, A + B).anns
  {
    forall a ensures Free(AddAll(s, A), a) == Free(s, a) {
    }
  }

  // What joining does to one group: its counter grows by the newcomers that probe.
  lemma AddedGroup(s: State, A: set<Announcer>, g: Group)
    requires g in s.groups
    ensures AddAll(s, A).groups.Keys == s.groups.Keys
    ensures AddAll(s, A).groups[g] == s.groups[g].(nProbing := s.groups[g].nProbing + |Probers(A, g)|)
  {
  }

  lemma AddKeepsGroupKeys(s: State, A: set<Announcer>)
    ensures AddAll(s, A).groups.Keys == s.groups.Keys
  {
  }

  lemma ProbersOnly(a: Announcer, h: Group)
    ensures |Probers({a}, h)| == if InGroup(a, h) && a.entry.flags.Probes() then 1 else 0
  {
    assert Probers({a}, h) == if InGroup(a, h) && a.entry.flags.Probes() then {a} else {};
  }

  lemma AddOne(s: State, a: Announcer)
    ensures AddAll(s, {a}).anns == s.anns[a := Start(InitialPhase(a.entry.flags, Free(s, a)))]
    ensures var g := a.entry.group;
            AddAll(s, {a}).groups ==
            if g == null || g !in s.groups then s.groups
            else s.groups[g := s.groups[g].(nProbing := s.groups[g].nProbing + if a.entry.flags.Probes() then 1 else 0)]
  {
    assert AddAll(s, {a}).anns == s.anns[a := Start(InitialPhase(a.entry.flags, Free(s, a)))];
    hide AddAll, Probers;
    AddKeepsGroupKeys(s, {a});
    forall h | h in s.groups
      ensures AddAll(s, {a}).groups[h] == s.groups[h].(
                nProbing := s.groups[h].nProbing + if InGroup(a, h) && a.entry.flags.Probes() then 1 else 0)
    {
      AddedGroup(s, {a}, h);
      ProbersOnly(a, h);
    }
  }

  lemma AddMoreGroups(s: State, A: set<Announcer>, B: set<Announcer>)
    requires A !! B
    ensures AddAll(AddAll(s, A), B).groups == AddAll(s, A + B).groups
  {
    hide AddAll;
    var t := AddAll(s, A);
    AddKeepsGroupKeys(s, A);
    AddKeepsGroupKeys(t, B);
    AddKeepsGroupKeys(s, A + B);
    forall g | g in s.groups ensures AddAll(t, B).groups[g] == AddAll(s, A + B).groups[g] {
      AddedGroup(s, A, g);
      AddedGroup(t, B, g);
      AddedGroup(s, A + B, g);
      assert Probers(A + B, g) == Probers(A, g) + Probers(B, g);
    }
  }

  // Announcers freed together with an interface or an entry.  The group counter
  // is left as it is, so those that were probing move to the ledger.
  ghost function RemoveAll(s: State, A: set<Announcer>): State {
    State(
      s.anns - A,
      map g | g in s.groups :: s.groups[g].(
        lost := s.groups[g].lost + |ProbingIn(s.anns, g) * A|))
  }

  lemma RemoveNothing(s: State)
    ensures RemoveAll(s, {}) == s
  {
    assert RemoveAll(s, {}).anns == s.anns;
    forall g | g in s.groups ensures RemoveAll(s, {}).groups[g] == s.groups[g] {
      assert ProbingIn(s.anns, g) * {} == {};
    }
    assert RemoveAll(s, {}).groups == s.groups;
  }

  lemma ProbingOnly(anns: map<Announcer, View>, a: Announcer, h: Group)
    requires a in anns
    ensures |ProbingIn(anns, h) * {a}| == if InGroup(a, h) && anns[a].phase == Probing then 1 else 0
  {
    assert ProbingIn(anns, h) * {a} == if InGroup(a, h) && anns[a].phase == Probing then {a} else {};
  }

  // What leaving does to one group: its ledger grows by the leavers that were probing.
  lemma RemovedGroup(s: State, A: set<Announcer>, g: Group)
    requires g in s.groups
    ensures RemoveAll(s, A).groups.Keys == s.groups.Keys
    ensures RemoveAll(s, A).groups[g] == s.groups[g].(lost := s.groups[g].lost + |ProbingIn(s.anns, g) * A|)
  {
  }

  lemma RemoveKeepsGroupKeys(s: State, A: set<Announcer>)
    ensures RemoveAll(s, A).groups.Keys == s.groups.Keys && RemoveAll(s, A).anns == s.anns - A
  {
  }

  lemma RemoveOne(s: State, a: Announcer)
    requires a in s.anns
    ensures RemoveAll(s, {a}).anns == s.anns - {a}
    ensures var g := a.entry.group;
            RemoveAll(s, {a}).groups ==
            if g == null || g !in s.groups then s.groups
            else s.groups[g := s.groups[g].(lost := s.groups[g].lost + if s.anns[a].phase == Probing then 1 else 0)]
  {
    hide RemoveAll, ProbingIn;
    var t := RemoveAll(s, {a});
    RemoveKeepsGroupKeys(s, {a});
    forall h | h in s.groups
      ensures t.groups[h] ==
              s.groups[h].(lost := s.groups[h].lost + if InGroup(a, h) && s.anns[a].phase == Probing then 1 else 0)
    {
      RemovedGroup(s, {a}, h);
      ProbingOnly(s.anns, a, h);
    }
  }

  lemma SplitCount<T>(P: set<T>, A: set<T>, B: set<T>)
    requires A !! B
    ensures |P * (A + B)| == |P * A| + |(P - A) * B|
  {
    assert P * (A + B) == P * A + (P - A) * B;
  }

  // Removing in two turns is removing at once.
  lemma RemoveMore(s: State, A: set<Announcer>, B: set<Announcer>)
    requires A !! B
    ensures RemoveAll(RemoveAll(s, A), B) == RemoveAll(s, A + B)
  {
    RemoveMoreAnns(s, A, B);
    RemoveMoreGroups(s, A, B);
  }

  lemma RemoveMoreAnns(s: State, A: set<Announcer>, B: set<Announcer>)
    ensures RemoveAll(RemoveAll(s, A), B).anns == RemoveAll(s, A + B).anns
  {
  }

  lemma RemoveMoreGroup(s: State, A: set<Announcer>, B: set<Announcer>, g: Group)
    requires A !! B && g in s.groups && RemoveAll(s, A).groups.Keys == s.groups.Keys
    requires RemoveAll(s, A).anns == s.anns - A
    ensures g in RemoveAll(RemoveAll(s, A), B).groups && g in RemoveAll(s, A + B).groups
    ensures RemoveAll(RemoveAll(s, A), B).groups[g] == RemoveAll(s, A + B).groups[g]
  {
    assert ProbingIn(s.anns - A, g) == ProbingIn(s.anns, g) - A;
    hide RemoveAll, ProbingIn;
    RemovedGroup(s, A, g);
    RemovedGroup(RemoveAll(s, A), B, g);
    RemovedGroup(s, A + B, g);
    SplitCount(ProbingIn(s.anns, g), A, B);
  }

  lemma RemoveMoreGroups(s: State, A: set<Announcer>, B: set<Announcer>)
    requires A !! B
    ensures RemoveAll(RemoveAll(s, A), B).groups == RemoveAll(s, A + B).groups
  {
    hide RemoveAll, ProbingIn;
    var t := RemoveAll(s, A);
    RemoveKeepsGroupKeys(s, A);
    RemoveKeepsGroupKeys(t, B);
    RemoveKeepsGroupKeys(s, A + B);
    forall g | g in s.groups ensures RemoveAll(t, B).groups[g] == RemoveAll(s, A + B).groups[g] {
      RemoveMoreGroup(s, A, B, g);
    }
  }

  ghost function ReannounceAll(s: State, A: set<Announcer>): State {
    State(
      map a | a in s.anns ::
        if a in A && Committed(s, a) then Start(ReannouncedPhase(s.anns[a].phase, a.entry.flags)) else s.anns[a],
      map g | g in s.groups ::
        if s.groups[g].state in {Registering, Registered} then
          s.groups[g].(nProbing := s.groups[g].nProbing + |Rejoining(s, A, g)|)
        else s.groups[g])
  }

  // Waiting announcers that a reannouncement sends back to probing.
  ghost function Rejoining(s: State, A: set<Announcer>, g: Group): set<Announcer> {
    set a | a in s.anns && a in A && InGroup(a, g) && s.anns[a].phase == Waiting && a.entry.flags.Probes()
  }

  lemma ReannounceNothing(s: State)
    ensures ReannounceAll(s, {}) == s
  {
    assert ReannounceAll(s, {}).anns == s.anns;
    forall g | g in s.groups ensures Rejoining(s, {}, g) == {} {
    }
    assert ReannounceAll(s, {}).groups == s.groups;
  }

  lemma RejoiningOnly(s: State, a: Announcer, g: Group)
    requires a in s.anns
    ensures |Rejoining(s, {a}, g)| ==
            if InGroup(a, g) && s.anns[a].phase == Waiting && a.entry.flags.Probes() then 1 else 0
  {
    assert Rejoining(s, {a}, g) ==
           if InGroup(a, g) && s.anns[a].phase == Waiting && a.entry.flags.Probes() then {a} else {};
  }

  lemma ReannounceOne(s: State, a: Announcer)
    requires a in s.anns && Committed(s, a)
    ensures ReannounceAll(s, {a}).anns == s.anns[a := Start(ReannouncedPhase(s.anns[a].phase, a.entry.flags))]
    ensures var g := a.entry.group;
            ReannounceAll(s, {a}).groups ==
            if g == null then s.groups
            else s.groups[g := s.groups[g].(
              nProbing := s.groups[g].nProbing + if s.anns[a].phase == Waiting && a.entry.flags.Probes() then 1 else 0)]
  {
    forall h | h in s.groups
      ensures |Rejoining(s, {a}, h)| ==
              if InGroup(a, h) && s.anns[a].phase == Waiting && a.entry.flags.Probes() then 1 else 0
    {
      RejoiningOnly(s, a, h);
    }
  }

  lemma ReannounceMoreGroup(s: State, A: set<Announcer>, B: set<Announcer>, g: Group)
    requires A !! B && g in s.groups
    ensures ReannounceAll(ReannounceAll(s, A), B).groups[g] == ReannounceAll(s, A + B).groups[g]
  {
    var t := ReannounceAll(s, A);
    if s.groups[g].state in {Registering, Registered} {
      assert Rejoining(t, B, g) == Rejoining(s, B, g);
      assert Rejoining(s, A + B, g) == Rejoining(s, A, g) + Rejoining(s, B, g);
      assert Rejoining(s, A, g) !! Rejoining(s, B, g);
    }
  }

  lemma ReannounceMoreAnns(s: State, A: set<Announcer>, B: set<Announcer>)
    requires A !! B
    ensures ReannounceAll(ReannounceAll(s, A), B).anns == ReannounceAll(s, A + B).anns
  {
    var t := ReannounceAll(s, A);
    forall a ensures Committed(t, a) == Committed(s, a) {
    }
  }

  // Reannouncing in two turns is reannouncing at once.
  lemma ReannounceMore(s: State, A: set<Announcer>, B: set<Announcer>)
    requires A !! B
    ensures ReannounceAll(ReannounceAll(s, A), B) == ReannounceAll(s, A + B)
  {
    ReannounceMoreAnns(s, A, B);
    forall g | g in s.groups
      ensures ReannounceAll(ReannounceAll(s, A), B).groups[g] == ReannounceAll(s, A + B).groups[g]
    {
      ReannounceMoreGroup(s, A, B, g);
    }
    assert ReannounceAll(ReannounceAll(s, A), B).groups == ReannounceAll(s, A + B).groups;
  }

  // A conflict sends one announcer back to where it began.
  ghost function Restart(s: State, a: Announcer): State
    requires CanFire(s, a)
  {
    var p := InitialPhase(a.entry.flags, Free(s, a));
    var g := a.entry.group;
    State(
      s.anns[a := Start(p)],
      if g == null || g !in s.groups then s.groups
      else
        var left := s.groups[g].nProbing - (if s.anns[a].phase == Probing then 1 else 0);
        s.groups[g := s.groups[g].(nProbing := left + if p == Probing then 1 else 0)])
  }

  // Commit while the holdoff lasts: registering, with nothing announced yet.
  ghost function Hold(s: State, g: Group): State
    requires g in s.groups
  {
    s.(groups := s.groups[g := s.groups[g].(state := Registering, registerTimer := true)])
  }

  // The real commit: registering, an announcer for every pair in A, then the check.
  ghost function Commit(s: State, g: Group, A: set<Announcer>): State
    requires g in s.groups
  {
    CheckProbed(AddAll(s.(groups := s.groups[g := s.groups[g].(state := Registering, registerTimer := false)]), A), g, false)
  }

  lemma CommitState(s: State, g: Group, A: set<Announcer>)
    requires g in s.groups
    ensures g in Commit(s, g, A).groups
    ensures var v := Commit(s, g, A).groups[g];
            v.state == (if v.nProbing == 0 then Registered else Registering) && !v.registerTimer
  {
  }

  // Reset and withdrawal drop all announcers of a group and zero its counter.
  ghost function Drop(s: State, g: Group, target: GroupState): State {
    State(s.anns - MembersOf(s.anns.Keys, g), s.groups[g := GroupView(target, 0, false, 0)])
  }

  lemma RemoveOthers(s: State, g: Group, h: Group)
    requires h in s.groups && h != g
    ensures RemoveAll(s, MembersOf(s.anns.Keys, g)).groups[h] == s.groups[h]
  {
    assert ProbingIn(s.anns, h) * MembersOf(s.anns.Keys, g) == {};
  }

  lemma DropGroups(s: State, g: Group, target: GroupState)
    requires g in s.groups
    ensures s.groups[g := GroupView(target, 0, false, 0)] ==
            RemoveAll(s, MembersOf(s.anns.Keys, g)).groups[g := GroupView(target, 0, false, 0)]
  {
    var t := RemoveAll(s, MembersOf(s.anns.Keys, g)).groups;
    assert t.Keys == s.groups.Keys;
    forall h | h in s.groups && h != g ensures t[h] == s.groups[h] {
      RemoveOthers(s, g, h);
    }
  }

  // Dropping a group is removing all its announcers and resetting the group.
  lemma DropIsRemove(s: State, g: Group, target: GroupState)
    requires g in s.groups
    ensures var t := RemoveAll(s, MembersOf(s.anns.Keys, g));
            && Drop(s, g, target).anns == t.anns
            && Drop(s, g, target).groups == t.groups[g := GroupView(target, 0, false, 0)]
  {
    hide ProbingIn;
    DropGroups(s, g, target);
  }

  // ---------------------------------------------------------------- the invariant

  function Probes(k: nat): seq<Event> {
    if k == 0 then [Arm(0)] else Probes(k - 1) + [Probe, Arm(250)]
  }

  function Power2(k: nat): nat {
    if k == 0 then 1 else 2 * Power2(k - 1)
  }

  // k announcements, each followed by twice the delay of the one before.
  function Announces(lead: seq<Event>, k: nat): seq<Event> {
    if k == 0 then lead else Announces(lead, k - 1) + [Announce, Arm(Power2(k - 1) * 1000)]
  }

  // The timer is the one last asked for: the first probe and every announcement come with
  // some jitter, the other probes at their time.
  predicate Armed(v: View) {
    && (v.phase == Probing ==> v.timer == if v.n == 1 then After(0, 250) else After(250, 0))
    && (v.phase == Announcing ==>
          && v.announceLog != [] && v.announceLog[|v.announceLog| - 1].Arm?
          && v.timer == After(v.announceLog[|v.announceLog| - 1].msec, 250))
  }

  // Whether a record is probed and announced is up to its flags, section 8 of RFC 6762: the
  // ones not to be announced are still announced once they had to be probed.
  predicate FlagsOk(v: View, f: Flags) {
    && (v.phase == Established && v.announceLog == [] ==> f.noAnnounce)
    && (!f.unique || f.noProbe ==> v.probeLog == [])
    && (f.noAnnounce && v.probeLog != Probes(3) ==> v.phase in {Probing, Established} && v.announceLog == [])
  }

  // An announcer's logs fit its phase and count: exactly three probes a quarter of
  // a second apart before it may wait or announce, then announcements at doubling delays.
  ghost predicate ViewOk(v: View) {
    && (v.timer != Off <==> v.phase in {Probing, Announcing}) && Armed(v)
    && match v.phase
       case Probing => 1 <= v.n <= 4 && v.secDelay == 1 && v.probeLog == Probes(v.n - 1) && v.announceLog == []
       case Waiting => v.secDelay == 1 && v.probeLog in {[], Probes(3)} && v.announceLog == []
       case Announcing =>
         && v.probeLog in {[], Probes(3)} && v.n <= 3
         && (|| (v.n >= 1 && v.secDelay == Power2(v.n - 1) &&
                 (v.announceLog == Announces([Arm(0)], v.n - 1) || v.announceLog == Announces([], v.n - 1)))
             || (v.secDelay == Power2(v.n) && v.announceLog == Announces([Arm(0)], v.n)))
       case Established =>
         && v.probeLog in {[], Probes(3)}
         && v.announceLog in {[],
                              Announces([], 2) + [Announce],
                              Announces([Arm(0)], 2) + [Announce],
                              Announces([Arm(0)], 3) + [Announce]}
  }

  // What the group barrier allows: nobody is heard while the group registers, and
  // nobody is held back once it is registered.
  ghost predicate BarrierOk(s: State, a: Announcer)
    requires a in s.anns
  {
    var g := a.entry.group;
    var p := s.anns[a].phase;
    && (p == Probing ==> a.entry.flags.Probes())
    && (p == Waiting && a.entry.flags.Probes() ==> s.anns[a].probeLog == Probes(3))
    && if g == null then p != Waiting
       else g in s.groups && match s.groups[g].state
         case Registering => p != Announcing && (p == Established ==> a.entry.flags.noAnnounce && s.anns[a].announceLog == [])
         case Registered => p != Waiting
         case _ => false
  }

  // The ledger: the counter is the number of live probing announcers of the group
  // plus the number of those freed while probing.
  ghost predicate LedgerOk(s: State, g: Group)
    requires g in s.groups
  {
    var v := s.groups[g];
    && v.nProbing == |ProbingIn(s.anns, g)| + v.lost
    && (v.registerTimer ==> v.state == Registering)
    && (v.state in {Uncommitted, Collision} ==> v.nProbing == 0)
  }

  ghost predicate GroupOk(s: State, g: Group)
    requires g in s.groups
  {
    var v := s.groups[g];
    LedgerOk(s, g) && (v.state == Registering && !v.registerTimer ==> v.nProbing > 0)
  }

  ghost predicate OnePerPair(A: set<Announcer>) {
    forall a, b :: a in A && b in A && a.entry == b.entry && a.iface == b.iface ==> a == b
  }

  ghost predicate AnnOk(s: State, a: Announcer)
    requires a in s.anns
  {
    ViewOk(s.anns[a]) && BarrierOk(s, a) && FlagsOk(s.anns[a], a.entry.flags)
  }

  ghost predicate AnnsOk(s: State) {
    forall a :: a in s.anns ==> AnnOk(s, a)
  }

  ghost predicate GroupsOk(s: State) {
    forall g :: g in s.groups ==> GroupOk(s, g)
  }

  ghost predicate Inv(s: State) {
    && OnePerPair(s.anns.Keys)
    && AnnsOk(s)
    && GroupsOk(s)
  }

  // ---------------------------------------------------------------- runs

  datatype Step =
    | NewGroup(g: Group)
    | TimerFires(a: Announcer)
    | Join(A: set<Announcer>)
    | Leave(A: set<Announcer>)
    | Reannounce(A: set<Announcer>)
    | Conflict(a: Announcer)
    | HoldCommit(g: Group)
    | RealCommit(g: Group, A: set<Announcer>)
    | Abandon(g: Group, target: GroupState)

  // When the server may take a step.
  ghost predicate Enabled(s: State, step: Step) {
    match step
    case NewGroup(g) => g !in s.groups
    case TimerFires(a) => a in s.anns && s.anns[a].timer != Off
    case Join(A) => A !! s.anns.Keys && OnePerPair(s.anns.Keys + A) && forall a :: a in A ==> Committed(s, a)
    case Leave(A) => true
    case Reannounce(A) => true
    case Conflict(a) => a in s.anns
    case HoldCommit(g) => g in s.groups && s.groups[g].state in {Uncommitted, Collision}
    case RealCommit(g, A) =>
      && g in s.groups
      && (s.groups[g].state in {Uncommitted, Collision} || s.groups[g].registerTimer)
      && A !! s.anns.Keys && OnePerPair(s.anns.Keys + A) && forall a :: a in A ==> InGroup(a, g)
    case Abandon(g, target) => g in s.groups && target in {Uncommitted, Collision}
  }

  // The assertion before the last probe's decrement, and the counter decrements
  // themselves: what must hold for the step not to abort or wrap around.
  ghost predicate Safe(s: State, step: Step)
    requires Enabled(s, step)
  {
    match step
    case TimerFires(a) => CanFire(s, a)
    case Conflict(a) => CanFire(s, a)
    case _ => true
  }

  ghost function Next(s: State, step: Step): State
    requires Enabled(s, step) && Safe(s, step)
  {
    match step
    case NewGroup(g) => s.(groups := s.groups[g := GroupView(Uncommitted, 0, false, 0)])
    case TimerFires(a) => Fire(s, a)
    case Join(A) => AddAll(s, A)
    case Leave(A) => RemoveAll(s, A)
    case Reannounce(A) => ReannounceAll(s, A)
    case Conflict(a) => Restart(s, a)
    case HoldCommit(g) => Hold(s, g)
    case RealCommit(g, A) => Commit(s, g, A)
    case Abandon(g, target) => Drop(s, g, target)
  }

  // The counter of a probing announcer's group is positive: neither the assertion
  // before the decrement nor any of the three decrements can fail.
  lemma FireReady(s: State, a: Announcer)
    requires Inv(s) && a in s.anns
    ensures CanFire(s, a)
  {
    assert AnnOk(s, a);
    var g := a.entry.group;
    if s.anns[a].phase == Probing && g != null {
      assert GroupOk(s, g);
      assert a in ProbingIn(s.anns, g);
    }
  }

  lemma StartOk(p: Phase)
    ensures ViewOk(Start(p))
  {
  }

  lemma ProbingAfterAdd(s: State, A: set<Announcer>, g: Group)
    requires A !! s.anns.Keys
    ensures |ProbingIn(AddAll(s, A).anns, g)| == |ProbingIn(s.anns, g)| + |Probers(A, g)|
  {
    var t := AddAll(s, A);
    var P := Probers(A, g);
    forall a | InGroup(a, g) && a in s.anns.Keys + A
      ensures a in ProbingIn(t.anns, g) <==> a in ProbingIn(s.anns, g) || a in P
    {
    }
    assert ProbingIn(t.anns, g) == ProbingIn(s.anns, g) + P;
    assert ProbingIn(s.anns, g) !! P;
  }

  lemma AddKeepsGroups(s: State, A: set<Announcer>, g: Group)
    requires g in s.groups && GroupOk(s, g) && A !! s.anns.Keys
    requires forall a :: a in A && InGroup(a, g) ==> s.groups[g].state in {Registering, Registered}
    ensures g in AddAll(s, A).groups && GroupOk(AddAll(s, A), g)
  {
    hide AddAll, ProbingIn;
    AddedGroup(s, A, g);
    ProbingAfterAdd(s, A, g);
    assert s.groups[g].state in {Uncommitted, Collision} ==> Probers(A, g) == {};
  }

  lemma AddKeepsAnn(s: State, A: set<Announcer>, a: Announcer)
    requires a in s.anns.Keys + A
    requires a in s.anns && a !in A ==> AnnOk(s, a)
    requires a in A ==> Committed(s, a)
    ensures AnnOk(AddAll(s, A), a)
  {
    if a in A {
      StartOk(InitialPhase(a.entry.flags, Free(s, a)));
    }
  }

  lemma AddKeepsInv(s: State, A: set<Announcer>)
    requires Inv(s) && Enabled(s, Join(A))
    ensures Inv(AddAll(s, A))
  {
    var t := AddAll(s, A);
    assert t.anns.Keys == s.anns.Keys + A;
    forall g | g in t.groups ensures GroupOk(t, g) {
      AddKeepsGroups(s, A, g);
    }
    forall a | a in t.anns ensures AnnOk(t, a) {
      AddKeepsAnn(s, A, a);
    }
  }

  // A view is judged together with the state of its group, and nothing else.
  lemma AnnOkDependsOn(s: State, t: State, a: Announcer)
    requires a in s.anns && a in t.anns && AnnOk(s, a) && s.anns[a] == t.anns[a]
    requires a.entry.group != null && a.entry.group in s.groups ==>
               a.entry.group in t.groups && t.groups[a.entry.group].state == s.groups[a.entry.group].state
    ensures AnnOk(t, a)
  {
  }

  lemma RemoveKeepsGroup(s: State, A: set<Announcer>, g: Group)
    requires g in s.groups && GroupOk(s, g)
    ensures GroupOk(RemoveAll(s, A), g)
  {
    var t := RemoveAll(s, A);
    var P := ProbingIn(s.anns, g) * A;
    assert ProbingIn(t.anns, g) == ProbingIn(s.anns, g) - P;
  }

  lemma RemoveKeepsInv(s: State, A: set<Announcer>)
    requires Inv(s)
    ensures Inv(RemoveAll(s, A))
  {
    var t := RemoveAll(s, A);
    forall g | g in t.groups ensures GroupOk(t, g) {
      RemoveKeepsGroup(s, A, g);
    }
    forall a | a in t.anns ensures AnnOk(t, a) {
      AnnOkDependsOn(s, t, a);
    }
  }

  lemma ProbingAfterReannounce(s: State, A: set<Announcer>, g: Group)
    requires g in s.groups
    ensures |ProbingIn(ReannounceAll(s, A).anns, g)| ==
            |ProbingIn(s.anns, g)| + if s.groups[g].state in {Registering, Registered} then |Rejoining(s, A, g)| else 0
  {
    var t := ReannounceAll(s, A);
    var P := Rejoining(s, A, g);
    forall a | a in s.anns && InGroup(a, g)
      ensures a in ProbingIn(t.anns, g) <==>
              a in ProbingIn(s.anns, g) || (a in P && s.groups[g].state in {Registering, Registered})
    {
    }
    assert ProbingIn(s.anns, g) !! P;
    if s.groups[g].state in {Registering, Registered} {
      assert ProbingIn(t.anns, g) == ProbingIn(s.anns, g) + P;
    } else {
      assert ProbingIn(t.anns, g) == ProbingIn(s.anns, g);
    }
  }

  lemma ReannouncedGroup(s: State, A: set<Announcer>, g: Group)
    requires g in s.groups
    ensures g in ReannounceAll(s, A).groups
    ensures ReannounceAll(s, A).groups[g] ==
            if s.groups[g].state in {Registering, Registered} then
              s.groups[g].(nProbing := s.groups[g].nProbing + |Rejoining(s, A, g)|)
            else s.groups[g]
  {
  }

  lemma ReannounceKeepsGroup(s: State, A: set<Announcer>, g: Group)
    requires g in s.groups && GroupOk(s, g)
    ensures g in ReannounceAll(s, A).groups && GroupOk(ReannounceAll(s, A), g)
  {
    hide ReannounceAll, Rejoining, ProbingIn;
    ReannouncedGroup(s, A, g);
    ProbingAfterReannounce(s, A, g);
  }

  lemma ReannounceKeepsAnn(s: State, A: set<Announcer>, a: Announcer)
    requires a in s.anns && AnnOk(s, a)
    ensures AnnOk(ReannounceAll(s, A), a)
  {
    StartOk(ReannouncedPhase(s.anns[a].phase, a.entry.flags));
  }

  lemma ReannounceKeepsInv(s: State, A: set<Announcer>)
    requires Inv(s)
    ensures Inv(ReannounceAll(s, A))
  {
    var t := ReannounceAll(s, A);
    assert t.anns.Keys == s.anns.Keys;
    forall g | g in t.groups ensures GroupOk(t, g) {
      ReannounceKeepsGroup(s, A, g);
    }
    forall a | a in t.anns ensures AnnOk(t, a) {
      ReannounceKeepsAnn(s, A, a);
    }
  }

  // Replacing one view: the probing set of a group gains or loses that announcer.
  lemma ProbingAfterUpdate(anns: map<Announcer, View>, a: Announcer, v: View, g: Group)
    requires a in anns
    ensures ProbingIn(anns[a := v], g) ==
            if InGroup(a, g) && v.phase == Probing then ProbingIn(anns, g) + {a} else ProbingIn(anns, g) - {a}
  {
  }

  lemma RestartKeepsGroup(s: State, a: Announcer, g: Group)
    requires CanFire(s, a) && g in s.groups && GroupOk(s, g)
    requires s.anns[a].phase == Probing ==> a.entry.flags.Probes()
    requires InGroup(a, g) ==> s.groups[g].state in {Registering, Registered}
    ensures GroupOk(Restart(s, a), g)
  {
    var t := Restart(s, a);
    ProbingAfterUpdate(s.anns, a, t.anns[a], g);
    assert a in ProbingIn(s.anns, g) <==> InGroup(a, g) && s.anns[a].phase == Probing;
  }

  lemma RestartKeepsAnn(s: State, a: Announcer, b: Announcer)
    requires CanFire(s, a) && a in s.anns && b in s.anns && AnnOk(s, a) && AnnOk(s, b)
    ensures b in Restart(s, a).anns && AnnOk(Restart(s, a), b)
  {
    var t := Restart(s, a);
    if b == a {
      StartOk(t.anns[a].phase);
    } else {
      hide ViewOk;
      AnnOkDependsOn(s, t, b);
    }
  }

  lemma RestartKeepsInv(s: State, a: Announcer)
    requires Inv(s) && CanFire(s, a)
    ensures Inv(Restart(s, a))
  {
    var t := Restart(s, a);
    assert t.anns.Keys == s.anns.Keys && t.groups.Keys == s.groups.Keys;
    assert AnnOk(s, a);
    hide ViewOk, Restart, LedgerOk;
    forall g | g in t.groups ensures GroupOk(t, g) {
      assert GroupOk(s, g);
      RestartKeepsGroup(s, a, g);
    }
    hide GroupOk, BarrierOk;
    forall b | b in t.anns ensures AnnOk(t, b) {
      RestartKeepsAnn(s, a, b);
    }
  }

  lemma ArmedStep(v: View)
    ensures v.phase == Announcing ==> Armed(AnnounceStep(v))
  {
  }

  lemma AnnounceStepOk(v: View)
    requires ViewOk(v) && v.phase == Announcing
    ensures ViewOk(AnnounceStep(v))
  {
    ArmedStep(v);
    hide Armed;
    assert Announces([], v.n) == if v.n == 0 then [] else Announces([], v.n - 1) + [Announce, Arm(Power2(v.n - 1) * 1000)];
  }

  lemma ReleaseOk(v: View, immediately: bool)
    requires ViewOk(v) && v.phase == Waiting
    ensures ViewOk(Release(v, immediately))
  {
    assert Announces([], 1) == [Announce, Arm(1000)];
  }

  // The state just before the check, when the counter of g may have reached zero.
  ghost predicate InvBeforeCheck(s: State, g: Group) {
    && OnePerPair(s.anns.Keys) && AnnsOk(s)
    && g in s.groups && LedgerOk(s, g)
    && forall h :: h in s.groups && h != g ==> GroupOk(s, h)
  }

  lemma CheckKeepsGroup(s: State, g: Group, immediately: bool, h: Group)
    requires g in s.groups && h in s.groups && LedgerOk(s, g) && (h != g ==> GroupOk(s, h))
    ensures GroupOk(CheckProbed(s, g, immediately), h)
  {
    var t := CheckProbed(s, g, immediately);
    assert ProbingIn(t.anns, h) == ProbingIn(s.anns, h);
  }

  lemma CheckKeepsAnn(s: State, g: Group, immediately: bool, a: Announcer)
    requires g in s.groups && LedgerOk(s, g) && a in s.anns && AnnOk(s, a)
    ensures AnnOk(CheckProbed(s, g, immediately), a)
  {
    if s.groups[g].state == Registering && s.groups[g].nProbing == 0 && InGroup(a, g) {
      assert a !in ProbingIn(s.anns, g);
      if s.anns[a].phase == Waiting {
        ReleaseOk(s.anns[a], immediately);
      }
    }
  }

  lemma CheckKeepsInv(s: State, g: Group, immediately: bool)
    requires InvBeforeCheck(s, g)
    ensures Inv(CheckProbed(s, g, immediately))
  {
    var t := CheckProbed(s, g, immediately);
    assert t.anns.Keys == s.anns.Keys;
    forall h | h in t.groups ensures GroupOk(t, h) {
      CheckKeepsGroup(s, g, immediately, h);
    }
    forall a | a in t.anns ensures AnnOk(t, a) {
      CheckKeepsAnn(s, g, immediately, a);
    }
  }

  // One announcer moves on within its phase; no counter is involved.
  lemma StepKeepsInv(s: State, a: Announcer, v: View)
    requires Inv(s) && a in s.anns
    requires (s.anns[a].phase == Probing) == (v.phase == Probing)
    requires AnnOk(s.(anns := s.anns[a := v]), a)
    ensures Inv(s.(anns := s.anns[a := v]))
  {
    var t := s.(anns := s.anns[a := v]);
    assert t.anns.Keys == s.anns.Keys;
    forall g | g in t.groups ensures GroupOk(t, g) {
      assert GroupOk(s, g);
      ProbingAfterUpdate(s.anns, a, v, g);
      assert ProbingIn(t.anns, g) == ProbingIn(s.anns, g);
    }
    forall b | b in t.anns ensures AnnOk(t, b) {
      if b != a {
        AnnOkDependsOn(s, t, b);
      }
    }
  }

  // One announcer leaves probing; the counter of its group, if any, follows.
  lemma LeaveProbing(s: State, a: Announcer, v: View, t: State)
    requires Inv(s) && CanFire(s, a) && s.anns[a].phase == Probing && v.phase != Probing
    requires t == State(s.anns[a := v], LeaveCounter(s, a).groups)
    requires AnnOk(t, a)
    ensures OnePerPair(t.anns.Keys) && AnnsOk(t)
    ensures forall h :: h in t.groups ==> LedgerOk(t, h) && (h != a.entry.group ==> GroupOk(t, h))
  {
    assert t.anns.Keys == s.anns.Keys;
    forall h | h in t.groups ensures LedgerOk(t, h) && (h != a.entry.group ==> GroupOk(t, h)) {
      assert GroupOk(s, h);
      ProbingAfterUpdate(s.anns, a, v, h);
      assert a in ProbingIn(s.anns, h) <==> h == a.entry.group;
    }
    forall b | b in t.anns ensures AnnOk(t, b) {
      if b != a {
        AnnOkDependsOn(s, t, b);
      }
    }
  }

  lemma ProbeStepOk(v: View)
    requires ViewOk(v) && v.phase == Probing && v.n < 4
    ensures ViewOk(ProbeStep(v))
  {
  }

  // After the third probe an announcer may wait or make its first announcement.
  lemma ProbedViewsOk(v: View)
    requires ViewOk(v) && v.phase == Probing && v.n >= 4
    ensures ViewOk(v.(timer := Off, phase := Waiting))
    ensures ViewOk(AnnounceStep(v.(timer := Off, phase := Announcing, n := 1)))
  {
    assert Announces([], 1) == [Announce, Arm(1000)];
  }

  lemma ProbingDoneKeepsInv(s: State, a: Announcer)
    requires Inv(s) && CanFire(s, a) && s.anns[a].phase == Probing && s.anns[a].n >= 4
    ensures Inv(ProbingDone(s, a))
  {
    assert AnnOk(s, a);
    ProbedViewsOk(s.anns[a]);
    var g := a.entry.group;
    var t := LeaveCounter(s, a);
    if t.anns[a].phase == Waiting {
      LeaveProbing(s, a, t.anns[a], t);
      CheckKeepsInv(t, g, true);
    } else {
      var u := t.(anns := t.anns[a := AnnounceStep(t.anns[a])]);
      assert u.anns == s.anns[a := u.anns[a]];
      LeaveProbing(s, a, u.anns[a], u);
      assert g != null ==> GroupOk(u, g);
    }
  }

  lemma FireKeepsInv(s: State, a: Announcer)
    requires Inv(s) && CanFire(s, a)
    ensures Inv(Fire(s, a))
  {
    assert AnnOk(s, a);
    var v := s.anns[a];
    match v.phase {
      case Waiting =>
        assert GroupOk(s, a.entry.group);
        CheckKeepsInv(s, a.entry.group, true);
      case Probing =>
        if v.n >= 4 {
          ProbingDoneKeepsInv(s, a);
        } else {
          ProbeStepOk(v);
          StepKeepsInv(s, a, ProbeStep(v));
        }
      case Announcing =>
        AnnounceStepOk(v);
        StepKeepsInv(s, a, AnnounceStep(v));
      case Established =>
    }
  }

  // A group that is not committed has no announcers at all.
  lemma UncommittedIsEmpty(s: State, g: Group)
    requires Inv(s) && g in s.groups && s.groups[g].state in {Uncommitted, Collision}
    ensures MembersOf(s.anns.Keys, g) == {} && ProbingIn(s.anns, g) == {} && s.groups[g].lost == 0
  {
    forall a | a in s.anns ensures !InGroup(a, g) {
      assert AnnOk(s, a);
    }
    assert GroupOk(s, g);
  }

  lemma HoldKeepsInv(s: State, g: Group)
    requires Inv(s) && Enabled(s, HoldCommit(g))
    ensures Inv(Hold(s, g))
  {
    UncommittedIsEmpty(s, g);
    var t := Hold(s, g);
    forall h | h in t.groups ensures GroupOk(t, h) {
      assert GroupOk(s, h);
    }
    forall a | a in t.anns ensures AnnOk(t, a) {
      assert a !in MembersOf(s.anns.Keys, g);
      AnnOkDependsOn(s, t, a);
    }
  }

  ghost function ClearTimer(s: State, g: Group): State
    requires g in s.groups
  {
    s.(groups := s.groups[g := s.groups[g].(registerTimer := false)])
  }

  lemma ClearTimerBeforeCheck(s: State, g: Group)
    requires Inv(s) && g in s.groups
    ensures InvBeforeCheck(ClearTimer(s, g), g)
  {
    var t := ClearTimer(s, g);
    forall h | h in t.groups ensures LedgerOk(t, h) && (h != g ==> GroupOk(t, h)) {
      assert GroupOk(s, h);
    }
    forall a | a in t.anns ensures AnnOk(t, a) {
      AnnOkDependsOn(s, t, a);
    }
  }

  // Adding announcers does not look at the register timer.
  lemma AddIgnoresTimer(s: State, g: Group, A: set<Announcer>)
    requires g in s.groups
    ensures AddAll(ClearTimer(s, g), A) == ClearTimer(AddAll(s, A), g)
  {
    var t := ClearTimer(s, g);
    forall a | a in s.anns.Keys + A ensures Free(t, a) == Free(s, a) {
    }
    assert AddAll(t, A).anns == AddAll(s, A).anns;
    assert AddAll(t, A).groups == ClearTimer(AddAll(s, A), g).groups;
  }

  lemma CommitAsSteps(s: State, g: Group, A: set<Announcer>)
    requires g in s.groups
    ensures Commit(s, g, A) == CheckProbed(ClearTimer(AddAll(Hold(s, g), A), g), g, false)
  {
    AddIgnoresTimer(Hold(s, g), g, A);
    assert ClearTimer(Hold(s, g), g) ==
           s.(groups := s.groups[g := s.groups[g].(state := Registering, registerTimer := false)]);
  }

  // Committing a group that is still held off restarts nothing.
  lemma HeldKeepsInv(s: State, g: Group)
    requires Inv(s) && g in s.groups && (s.groups[g].state in {Uncommitted, Collision} || s.groups[g].registerTimer)
    ensures Inv(Hold(s, g))
  {
    if s.groups[g].registerTimer {
      assert GroupOk(s, g);
      assert Hold(s, g) == s;
    } else {
      HoldKeepsInv(s, g);
    }
  }

  lemma CommitKeepsInv(s: State, g: Group, A: set<Announcer>)
    requires Inv(s) && Enabled(s, RealCommit(g, A))
    ensures Inv(Commit(s, g, A))
  {
    HeldKeepsInv(s, g);
    var held := Hold(s, g);
    assert Enabled(held, Join(A)) by {
      assert forall a :: a in A ==> InGroup(a, g) && Committed(held, a);
    }
    AddKeepsInv(held, A);
    ClearTimerBeforeCheck(AddAll(held, A), g);
    CheckKeepsInv(ClearTimer(AddAll(held, A), g), g, false);
    CommitAsSteps(s, g, A);
  }

  lemma DropKeepsInv(s: State, g: Group, target: GroupState)
    requires Inv(s) && Enabled(s, Abandon(g, target))
    ensures Inv(Drop(s, g, target))
  {
    var t := Drop(s, g, target);
    forall h | h in t.groups ensures GroupOk(t, h) {
      if h == g {
        assert ProbingIn(t.anns, h) == {};
      } else {
        assert GroupOk(s, h);
        assert ProbingIn(t.anns, h) == ProbingIn(s.anns, h);
      }
    }
    forall a | a in t.anns ensures AnnOk(t, a) {
      AnnOkDependsOn(s, t, a);
    }
  }

  lemma NewGroupKeepsInv(s: State, g: Group)
    requires Inv(s) && g !in s.groups
    ensures Inv(s.(groups := s.groups[g := GroupView(Uncommitted, 0, false, 0)]))
  {
    var t := s.(groups := s.groups[g := GroupView(Uncommitted, 0, false, 0)]);
    forall a | a in t.anns ensures AnnOk(t, a) && !InGroup(a, g) {
      assert AnnOk(s, a);
      AnnOkDependsOn(s, t, a);
    }
    forall h | h in t.groups ensures GroupOk(t, h) {
      if h == g {
        assert ProbingIn(t.anns, g) == {};
      } else {
        assert GroupOk(s, h);
      }
    }
  }

  // Every step the server may take from a good state is safe and leads to a good state.
  lemma NextKeepsInv(s: State, step: Step)
    requires Inv(s) && Enabled(s, step)
    ensures Safe(s, step) && Inv(Next(s, step))
  {
    match step {
      case NewGroup(g) => NewGroupKeepsInv(s, g);
      case TimerFires(a) => FireReady(s, a); FireKeepsInv(s, a);
      case Join(A) => AddKeepsInv(s, A);
      case Leave(A) => RemoveKeepsInv(s, A);
      case Reannounce(A) => ReannounceKeepsInv(s, A);
      case Conflict(a) => FireReady(s, a); RestartKeepsInv(s, a);
      case HoldCommit(g) => HoldKeepsInv(s, g);
      case RealCommit(g, A) => CommitKeepsInv(s, g, A);
      case Abandon(g, target) => DropKeepsInv(s, g, target);
    }
  }

  const EMPTY := State(map[], map[])

  // A run takes enabled steps from the empty server; after an unsafe step
  // (an abort, or a counter below zero) anything might follow.
  ghost predicate IsRun(states: seq<State>, steps: seq<Step>) {
    && |states| == |steps| + 1
    && states[0] == EMPTY
    && forall i :: 0 <= i < |steps| ==> Takes(states[i], steps[i], states[i + 1])
  }

  ghost predicate Takes(s: State, step: Step, t: State) {
    Enabled(s, step) && (Safe(s, step) ==> t == Next(s, step))
  }

  lemma RunGrows(states: seq<State>, steps: seq<Step>, step: Step, t: State)
    requires IsRun(states, steps) && Takes(states[|steps|], step, t)
    ensures IsRun(states + [t], steps + [step])
  {
    hide Takes;
    var more, did := states + [t], steps + [step];
    forall i | 0 <= i < |did| ensures Takes(more[i], did[i], more[i + 1]) {
      if i < |steps| {
        assert more[i] == states[i] && did[i] == steps[i] && more[i + 1] == states[i + 1];
      }
    }
  }

  lemma {:induction false} RunInv(states: seq<State>, steps: seq<Step>, i: nat)
    requires IsRun(states, steps) && i < |states|
    ensures Inv(states[i])
  {
    if i > 0 {
      RunInv(states, steps, i - 1);
      assert Takes(states[i - 1], steps[i - 1], states[i]);
      NextKeepsInv(states[i - 1], steps[i - 1]);
    }
  }

  // No run trips the assertion or drives a counter below zero.
  lemma RunsAreSafe(states: seq<State>, steps: seq<Step>, i: nat)
    requires IsRun(states, steps) && i < |steps|
    ensures Enabled(states[i], steps[i]) && Safe(states[i], steps[i])
    ensures states[i + 1] == Next(states[i], steps[i])
  {
    RunInv(states, steps, i);
    assert Takes(states[i], steps[i], states[i + 1]);
    NextKeepsInv(states[i], steps[i]);
  }

  // The probe ledger in every reachable state.
  lemma RunLedger(states: seq<State>, steps: seq<Step>, i: nat, g: Group)
    requires IsRun(states, steps) && i < |states| && g in states[i].groups
    ensures states[i].groups[g].nProbing == |ProbingIn(states[i].anns, g)| + states[i].groups[g].lost
    ensures states[i].groups[g].state == Registering && !states[i].groups[g].registerTimer ==>
              states[i].groups[g].nProbing > 0
  {
    RunInv(states, steps, i);
    assert GroupOk(states[i], g);
  }

  // The group barrier in every reachable state: while the group registers none of
  // its records has been announced, and once it is registered none is held back.
  lemma RunBarrier(states: seq<State>, steps: seq<Step>, i: nat, a: Announcer)
    requires IsRun(states, steps) && i < |states| && a in states[i].anns && a.entry.group != null
    ensures a.entry.group in states[i].groups
    ensures var gs := states[i].groups[a.entry.group].state; var v := states[i].anns[a];
            && gs in {Registering, Registered}
            && (gs == Registering ==> v.phase != Announcing && v.announceLog == [])
            && (gs == Registered ==> v.phase != Waiting)
  {
    RunInv(states, steps, i);
    assert AnnOk(states[i], a);
  }

  // In every reachable state: a record that is not announced in the end is one that must not
  // be; one that must not be is announced only after probing, and only a unique record
  // without no-probe is probed.
  lemma RunAnnounces(states: seq<State>, steps: seq<Step>, i: nat, a: Announcer)
    requires IsRun(states, steps) && i < |states| && a in states[i].anns
    ensures var v, f := states[i].anns[a], a.entry.flags;
            && (v.phase == Established && v.announceLog == [] ==> f.noAnnounce)
            && (!f.unique || f.noProbe ==> v.phase != Probing && v.probeLog == [])
            && (f.noAnnounce && v.probeLog != THREE_PROBES ==> v.phase in {Probing, Established} && v.announceLog == [])
            && (f.noAnnounce && (!f.unique || f.noProbe) ==> v.phase == Established && v.announceLog == [])
  {
    RunInv(states, steps, i);
    assert AnnOk(states[i], a);
    assert Probes(3) == THREE_PROBES;
  }

  // In every reachable state the timer that is set is the one last asked for.
  lemma RunTimers(states: seq<State>, steps: seq<Step>, i: nat, a: Announcer)
    requires IsRun(states, steps) && i < |states| && a in states[i].anns && states[i].anns[a].timer != Off
    ensures var v := states[i].anns[a]; var events := if v.phase == Probing then v.probeLog else v.announceLog;
            && events != [] && events[|events| - 1].Arm?
            && v.timer == After(events[|events| - 1].msec, if events[|events| - 1].msec == 250 then 0 else 250)
  {
    RunInv(states, steps, i);
    assert AnnOk(states[i], a);
    AnnouncesDelays(states[i].anns[a]);
  }

  // No delay of an announcement is that of a probe.
  lemma AnnouncesDelays(v: View)
    requires ViewOk(v) && v.timer != Off
    ensures v.phase == Probing ==> v.probeLog != [] && v.probeLog[|v.probeLog| - 1] == Arm(if v.n == 1 then 0 else 250)
    ensures v.phase == Announcing ==> v.announceLog[|v.announceLog| - 1].msec != 250
  {
    if v.phase == Announcing {
      hide Probes;
      LastDelay([Arm(0)], v.n);
      LastDelay([], v.n);
      if v.n > 0 {
        LastDelay([Arm(0)], v.n - 1);
        LastDelay([], v.n - 1);
      }
      hide Announces, Power2;
    }
  }

  lemma {:induction false} LastDelay(lead: seq<Event>, k: nat)
    requires lead in {[], [Arm(0)]}
    ensures var es := Announces(lead, k); es != [] ==> es[|es| - 1].Arm? && es[|es| - 1].msec != 250
  {
    hide Power2;
    if k > 0 {
      var p := Power2(k - 1);
      assert Announces(lead, k) == Announces(lead, k - 1) + [Announce, Arm(p * 1000)];
      hide Announces;
    }
  }

  // In every reachable state an announcer has a timer exactly while it probes or
  // announces, probes only for unique records that ask for it, and never shares
  // its entry and interface with another announcer.
  lemma RunAnnouncers(states: seq<State>, steps: seq<Step>, i: nat, a: Announcer)
    requires IsRun(states, steps) && i < |states| && a in states[i].anns
    ensures states[i].anns[a].timer != Off <==> states[i].anns[a].phase in {Probing, Announcing}
    ensures states[i].anns[a].phase == Probing ==> a.entry.flags.unique && !a.entry.flags.noProbe
    ensures forall b :: b in states[i].anns && b.entry == a.entry && b.iface == a.iface ==> b == a
  {
    RunInv(states, steps, i);
    assert AnnOk(states[i], a);
  }

  lemma CheckOpensLast(s: State, g: Group, immediately: bool, h: Group)
    requires g in s.groups && h in s.groups && s.groups[h].state != Registered
    requires CheckProbed(s, g, immediately).groups[h].state == Registered
    ensures h == g && s.groups[g].nProbing == 0
    ensures CheckProbed(s, g, immediately).groups[g].nProbing == 0
  {
  }

  lemma OpeningCounter(s: State, step: Step, g: Group)
    requires Enabled(s, step) && Safe(s, step)
    requires g in s.groups && s.groups[g].state != Registered
    requires g in Next(s, step).groups && Next(s, step).groups[g].state == Registered
    ensures Next(s, step).groups[g].nProbing == 0
  {
    match step {
      case TimerFires(a) =>
        if s.anns[a].phase == Probing {
          if LeaveCounter(s, a).anns[a].phase == Waiting {
            CheckOpensLast(LeaveCounter(s, a), a.entry.group, true, g);
          }
        }
      case RealCommit(g', A) =>
        CommitAsSteps(s, g', A);
        CheckOpensLast(ClearTimer(AddAll(Hold(s, g'), A), g'), g', false, g);
      case _ =>
    }
  }

  // A step that opens a group's barrier leaves no live record of the group probing.
  lemma BarrierOpensLast(s: State, step: Step, g: Group)
    requires Inv(s) && Enabled(s, step) && Safe(s, step)
    requires g in s.groups && s.groups[g].state != Registered
    requires g in Next(s, step).groups && Next(s, step).groups[g].state == Registered
    ensures ProbingIn(Next(s, step).anns, g) == {} && Next(s, step).groups[g].lost == 0
  {
    NextKeepsInv(s, step);
    OpeningCounter(s, step, g);
    assert GroupOk(Next(s, step), g);
  }

  const THREE_PROBES := [Arm(0), Probe, Arm(250), Probe, Arm(250), Probe, Arm(250)]
  const THREE_ANNOUNCEMENTS := [Announce, Arm(1000), Announce, Arm(2000), Announce]
  const FOUR_ANNOUNCEMENTS := [Announce, Arm(1000), Announce, Arm(2000), Announce, Arm(4000), Announce]

  lemma TrafficOf(v: View)
    requires ViewOk(v)
    ensures v.phase != Probing ==> v.probeLog in {[], THREE_PROBES}
    ensures v.phase == Established ==>
              v.announceLog in {[], THREE_ANNOUNCEMENTS, [Arm(0)] + THREE_ANNOUNCEMENTS, [Arm(0)] + FOUR_ANNOUNCEMENTS}
    ensures v.phase == Established && Quick(v) ==> v.announceLog != [Arm(0)] + FOUR_ANNOUNCEMENTS
  {
    assert Probes(3) == THREE_PROBES;
    assert Announces([], 2) + [Announce] == THREE_ANNOUNCEMENTS;
    assert Announces([Arm(0)], 2) + [Announce] == [Arm(0)] + THREE_ANNOUNCEMENTS;
    assert Announces([Arm(0)], 3) + [Announce] == [Arm(0)] + FOUR_ANNOUNCEMENTS;
  }

  // Not on the track of four announcements, which begins with a delayed release
  predicate Quick(v: View) {
    && (v.phase == Announcing ==> v.n >= 1 && v.secDelay == Power2(v.n - 1))
    && (v.phase == Established ==> v.announceLog != Announces([Arm(0)], 3) + [Announce])
  }

  // A unique record is never on that track: where it waits, another one still probes.
  ghost predicate Prompt(s: State, a: Announcer)
    requires a in s.anns
  {
    var g := a.entry.group;
    a.entry.flags.Probes() ==>
      && Quick(s.anns[a])
      && (s.anns[a].phase == Waiting ==> g != null && g in s.groups && s.groups[g].nProbing > 0)
  }

  ghost predicate AllPrompt(s: State) {
    forall a :: a in s.anns ==> Prompt(s, a)
  }

  lemma QuickStep(v: View)
    requires ViewOk(v) && Quick(v) && v.phase == Announcing
    ensures Quick(AnnounceStep(v))
  {
    if v.n + 1 >= 4 {
      AnnounceCount([Arm(0)]);
      AnnounceCount([]);
    }
  }

  // Three announcements are not four.
  lemma AnnounceCount(lead: seq<Event>)
    requires lead in {[], [Arm(0)]}
    ensures |Announces(lead, 2) + [Announce]| < |Announces([Arm(0)], 3) + [Announce]|
  {
    assert |Announces(lead, 2)| == |lead| + 4;
    assert |Announces([Arm(0)], 3)| == 7;
  }

  lemma CheckKeepsPrompt(s: State, g: Group, immediately: bool, a: Announcer)
    requires g in s.groups && a in s.anns && ViewOk(s.anns[a])
    requires a.entry.flags.Probes() ==> Quick(s.anns[a])
    requires a.entry.flags.Probes() && s.anns[a].phase == Waiting ==>
      var h := a.entry.group;
      && h != null && h in s.groups && s.groups[h].state == Registering
      && ((immediately && h == g) || s.groups[h].nProbing > 0)
    ensures Prompt(CheckProbed(s, g, immediately), a)
  {
    hide ViewOk, Quick;
    if a.entry.flags.Probes() && InGroup(a, g) && s.anns[a].phase == Waiting && s.groups[g].nProbing == 0 {
      ReleaseIsQuick(s.anns[a]);
    }
  }

  lemma ReleaseIsQuick(v: View)
    requires ViewOk(v) && v.phase == Waiting
    ensures Quick(Release(v, true)) && Release(v, true).phase != Waiting
  {
    assert Power2(1) == 2;
  }

  lemma StartIsQuick(p: Phase)
    ensures Quick(Start(p))
  {
    assert |Announces([Arm(0)], 3) + [Announce]| > 0;
    assert Power2(0) == 1;
  }

  lemma AddKeepsPrompt(s: State, A: set<Announcer>, a: Announcer)
    requires a in s.anns.Keys + A
    requires a in s.anns && a !in A ==> Prompt(s, a)
    ensures Prompt(AddAll(s, A), a)
  {
    hide Quick, Start;
    if a in A {
      StartPhase(InitialPhase(a.entry.flags, Free(s, a)));
      StartIsQuick(InitialPhase(a.entry.flags, Free(s, a)));
    }
  }

  lemma StartPhase(p: Phase)
    ensures Start(p).phase == p
  {
  }

  lemma CommitKeepsPrompt(s: State, g: Group, A: set<Announcer>, a: Announcer)
    requires Inv(s) && Enabled(s, RealCommit(g, A))
    requires a in s.anns.Keys + A && (a in s.anns ==> Prompt(s, a))
    ensures a in Commit(s, g, A).anns && Prompt(Commit(s, g, A), a)
  {
    HeldKeepsInv(s, g);
    var held := Hold(s, g);
    assert Enabled(held, Join(A)) by {
      assert forall b :: b in A ==> InGroup(b, g) && Committed(held, b);
    }
    AddKeepsInv(held, A);
    AddKeepsPrompt(held, A, a);
    var t := AddAll(held, A);
    assert a in t.anns && AnnOk(t, a);
    hide AddAll, Hold, Inv;
    CommitAsSteps(s, g, A);
    CheckKeepsPrompt(ClearTimer(t, g), g, false, a);
  }

  lemma FireKeepsPrompt(s: State, b: Announcer, a: Announcer)
    requires Inv(s) && CanFire(s, b) && s.anns[b].timer != Off && a in s.anns
    requires Prompt(s, a) && Prompt(s, b)
    ensures a in Fire(s, b).anns && Prompt(Fire(s, b), a)
  {
    assert AnnOk(s, a) && AnnOk(s, b);
    hide Inv;
    var v := s.anns[b];
    match v.phase {
      case Probing =>
        if v.n >= 4 {
          DoneKeepsPrompt(s, b, a);
        }
      case Announcing =>
        hide ViewOk, Quick;
        if a.entry.flags.Probes() {
          QuickIf(v);
        }
      case _ =>
    }
  }

  lemma QuickIf(v: View)
    requires ViewOk(v) && v.phase == Announcing
    ensures Quick(v) ==> Quick(AnnounceStep(v))
    ensures AnnounceStep(v).phase != Waiting
  {
    if Quick(v) {
      QuickStep(v);
    }
  }

  lemma DoneKeepsPrompt(s: State, b: Announcer, a: Announcer)
    requires CanFire(s, b) && s.anns[b].phase == Probing && a in s.anns && AnnOk(s, a) && AnnOk(s, b)
    requires s.anns[b].n >= 4 && Prompt(s, a)
    ensures a in ProbingDone(s, b).anns && Prompt(ProbingDone(s, b), a)
  {
    var t := LeaveCounter(s, b);
    ProbedViewsOk(s.anns[b]);
    if t.anns[b].phase == Waiting {
      hide CheckProbed;
      assert a != b ==> t.anns[a] == s.anns[a];
      CheckKeepsPrompt(t, b.entry.group, true, a);
      CheckLowersRanks(t, b.entry.group, true);
    } else {
      assert Power2(0) == 1 && Power2(1) == 2;
    }
  }

  lemma ReannounceKeepsPrompt(s: State, A: set<Announcer>, a: Announcer)
    requires a in s.anns && Prompt(s, a)
    ensures Prompt(ReannounceAll(s, A), a)
  {
    var p := ReannouncedPhase(s.anns[a].phase, a.entry.flags);
    StartIsQuick(p);
    StartPhase(p);
    hide Quick, Start;
  }

  lemma RestartKeepsPrompt(s: State, b: Announcer, a: Announcer)
    requires CanFire(s, b) && a in s.anns && Prompt(s, a)
    requires s.anns[b].phase == Probing ==> b.entry.flags.Probes()
    ensures a in Restart(s, b).anns && Prompt(Restart(s, b), a)
  {
    var p := InitialPhase(b.entry.flags, Free(s, b));
    StartIsQuick(p);
    StartPhase(p);
    hide Quick, Start;
  }

  lemma DropKeepsPrompt(s: State, g: Group, target: GroupState, a: Announcer)
    requires a in Drop(s, g, target).anns && Prompt(s, a)
    ensures Prompt(Drop(s, g, target), a)
  {
    hide Quick;
    assert !InGroup(a, g);
  }

  lemma NextKeepsPrompt(s: State, step: Step, a: Announcer)
    requires Inv(s) && Enabled(s, step) && Safe(s, step) && AllPrompt(s)
    requires a in Next(s, step).anns
    ensures Prompt(Next(s, step), a)
  {
    match step {
      case TimerFires(b) =>
        hide Fire, Inv;
        FireLowersRanks(s, b);
        FireKeepsPrompt(s, b, a);
      case Join(A) => AddKeepsPrompt(s, A, a);
      case Reannounce(A) => ReannounceKeepsPrompt(s, A, a);
      case Conflict(b) =>
        assert AnnOk(s, b);
        hide Quick, Inv;
        RestartKeepsPrompt(s, b, a);
      case RealCommit(g, A) =>
        hide CheckProbed;
        CommitKeys(s, g, A);
        hide Commit, Inv;
        CommitKeepsPrompt(s, g, A, a);
      case Abandon(g, target) => DropKeepsPrompt(s, g, target, a);
      case _ => hide Quick;
    }
  }

  lemma CommitKeys(s: State, g: Group, A: set<Announcer>)
    requires g in s.groups
    ensures Commit(s, g, A).anns.Keys == s.anns.Keys + A
  {
  }

  lemma {:induction false} RunPrompt(states: seq<State>, steps: seq<Step>, i: nat)
    requires IsRun(states, steps) && i < |states|
    ensures AllPrompt(states[i])
  {
    hide Prompt;
    if i > 0 {
      RunPrompt(states, steps, i - 1);
      RunInv(states, steps, i - 1);
      RunsAreSafe(states, steps, i - 1);
      forall a | a in states[i].anns ensures Prompt(states[i], a) {
        NextKeepsPrompt(states[i - 1], steps[i - 1], a);
      }
    }
  }

  // What goes on the wire, in every reachable state: an announcer that is past
  // probing has sent no probe or exactly three, 250 ms apart, since it last started;
  // one that waits after probing has sent all three; and an established one has
  // announced not at all, or three times with doubling delays, or four times, which
  // only records do that need no probing.
  lemma RunTraffic(states: seq<State>, steps: seq<Step>, i: nat, a: Announcer)
    requires IsRun(states, steps) && i < |states| && a in states[i].anns
    ensures var v := states[i].anns[a];
            && (v.phase != Probing ==> v.probeLog in {[], THREE_PROBES})
            && (v.phase == Waiting && a.entry.flags.unique && !a.entry.flags.noProbe ==> v.probeLog == THREE_PROBES)
            && (v.phase == Established ==>
                  || v.announceLog in {[], THREE_ANNOUNCEMENTS, [Arm(0)] + THREE_ANNOUNCEMENTS}
                  || (v.announceLog == [Arm(0)] + FOUR_ANNOUNCEMENTS && (!a.entry.flags.unique || a.entry.flags.noProbe)))
  {
    RunInv(states, steps, i);
    RunPrompt(states, steps, i);
    assert AnnOk(states[i], a) && Prompt(states[i], a);
    TrafficOf(states[i].anns[a]);
  }

  // A reannouncement of an announcer that is past the barrier, which does not probe again.
  ghost predicate Renews(s: State, step: Step, a: Announcer) {
    step.Reannounce? && a in step.A && a in s.anns && s.anns[a].phase in {Announcing, Established}
  }

  // Still probing, or with all three probes sent
  ghost predicate Probed(s: State, a: Announcer) {
    a in s.anns ==> s.anns[a].phase == Probing || s.anns[a].probeLog == Probes(3)
  }

  lemma CheckKeepsProbed(s: State, g: Group, immediately: bool, a: Announcer)
    requires g in s.groups && Probed(s, a)
    ensures Probed(CheckProbed(s, g, immediately), a)
  {
  }

  lemma CommitKeepsProbed(s: State, g: Group, A: set<Announcer>, a: Announcer)
    requires g in s.groups && a.entry.flags.Probes() && Probed(s, a)
    ensures Probed(Commit(s, g, A), a)
  {
    hide CheckProbed, Commit;
    var held := Hold(s, g);
    assert Probed(AddAll(held, A), a);
    AddKeepsGroupKeys(held, A);
    hide AddAll;
    CheckKeepsProbed(ClearTimer(AddAll(held, A), g), g, false, a);
    CommitAsSteps(s, g, A);
  }

  lemma FireKeepsProbed(s: State, b: Announcer, a: Announcer)
    requires CanFire(s, b) && ViewOk(s.anns[b]) && Probed(s, a)
    ensures Probed(Fire(s, b), a)
  {
    hide CheckProbed;
    var v := s.anns[b];
    match v.phase {
      case Waiting => CheckKeepsProbed(s, b.entry.group, true, a);
      case Probing =>
        if v.n >= 4 {
          var t := LeaveCounter(s, b);
          assert Probed(t, a);
          if t.anns[b].phase == Waiting {
            CheckKeepsProbed(t, b.entry.group, true, a);
          }
        }
      case _ =>
    }
  }

  lemma NextKeepsProbed(s: State, step: Step, a: Announcer)
    requires Inv(s) && Enabled(s, step) && Safe(s, step)
    requires a.entry.flags.Probes() && Probed(s, a) && !Renews(s, step, a)
    ensures Probed(Next(s, step), a)
  {
    match step {
      case TimerFires(b) =>
        assert AnnOk(s, b);
        hide Fire, ViewOk;
        FireKeepsProbed(s, b, a);
      case RealCommit(g, A) =>
        hide Commit;
        CommitKeepsProbed(s, g, A, a);
      case _ =>
        hide ViewOk;
    }
  }

  // Section 8.1 of RFC 6762 for unique records: from wherever an announcer was not there
  // or probing, it gets past probing with all three probes sent, unless it is announced
  // anew afterwards.
  lemma {:induction false} RunProbes(states: seq<State>, steps: seq<Step>, i: nat, j: nat, a: Announcer)
    requires IsRun(states, steps) && i <= j < |states| && a.entry.flags.unique && !a.entry.flags.noProbe
    requires a in states[i].anns ==> states[i].anns[a].phase == Probing
    requires forall k :: i <= k < j ==> !Renews(states[k], steps[k], a)
    ensures a in states[j].anns && states[j].anns[a].phase != Probing ==> states[j].anns[a].probeLog == THREE_PROBES
    ensures Probed(states[j], a)
  {
    assert Probes(3) == THREE_PROBES;
    if i < j {
      hide Renews, Next, Safe, Enabled, Inv;
      RunProbes(states, steps, i, j - 1, a);
      RunInv(states, steps, j - 1);
      RunsAreSafe(states, steps, j - 1);
      NextKeepsProbed(states[j - 1], steps[j - 1], a);
    }
  }

  // ---------------------------------------------------------------- progress

  // How many timer steps are at most ahead of an announcer.
  function Rank(v: View): nat {
    match v.phase
    case Probing => if v.n <= 4 then 10 - v.n else 6
    case Waiting => 5
    case Announcing => if v.n <= 3 then 4 - v.n else 1
    case Established => 0
  }

  ghost function AtLeast(s: State, k: nat): set<Announcer> {
    set a | a in s.anns && Rank(s.anns[a]) >= k
  }

  // The sum of all ranks, counted level by level.
  ghost function RankSum(s: State, k: nat): nat {
    if k == 0 then 0 else |AtLeast(s, k)| + RankSum(s, k - 1)
  }

  ghost function Measure(s: State): nat {
    RankSum(s, 9)
  }

  lemma RankSumMonotone(s: State, t: State, k: nat)
    requires s.anns.Keys == t.anns.Keys
    requires forall a :: a in s.anns ==> Rank(t.anns[a]) <= Rank(s.anns[a])
    ensures RankSum(t, k) <= RankSum(s, k)
  {
    if k > 0 {
      RankSumMonotone(s, t, k - 1);
      assert AtLeast(t, k) <= AtLeast(s, k);
      SubsetCardinality(AtLeast(t, k), AtLeast(s, k));
    }
  }

  lemma SubsetCardinality<T>(A: set<T>, B: set<T>)
    requires A <= B
    ensures |A| <= |B| && (A != B ==> |A| < |B|)
  {
    assert |B| == |A| + |B - A| by {
      assert B == A + (B - A);
    }
    if A != B {
      var x :| x in B - A;
    }
  }

  lemma RankSumDrops(s: State, t: State, a: Announcer, k: nat)
    requires s.anns.Keys == t.anns.Keys && a in s.anns
    requires forall b :: b in s.anns ==> Rank(t.anns[b]) <= Rank(s.anns[b])
    requires Rank(t.anns[a]) < Rank(s.anns[a]) <= k
    ensures RankSum(t, k) < RankSum(s, k)
  {
    assert AtLeast(t, k) <= AtLeast(s, k);
    SubsetCardinality(AtLeast(t, k), AtLeast(s, k));
    if Rank(s.anns[a]) == k {
      assert a in AtLeast(s, k) && a !in AtLeast(t, k);
      RankSumMonotone(s, t, k - 1);
    } else {
      RankSumDrops(s, t, a, k - 1);
    }
  }

  lemma CheckLowersRanks(s: State, g: Group, immediately: bool)
    requires g in s.groups
    ensures CheckProbed(s, g, immediately).anns.Keys == s.anns.Keys
    ensures forall b :: b in s.anns ==> Rank(CheckProbed(s, g, immediately).anns[b]) <= Rank(s.anns[b])
  {
    forall b | b in s.anns ensures Rank(Release(s.anns[b], immediately)) <= Rank(s.anns[b]) {
    }
  }

  lemma ArmedPhase(s: State, a: Announcer)
    requires Inv(s) && a in s.anns && s.anns[a].timer != Off
    ensures s.anns[a].phase in {Probing, Announcing}
    ensures s.anns[a].phase == Probing ==> 1 <= s.anns[a].n <= 4
    ensures s.anns[a].phase == Announcing ==> s.anns[a].n <= 3
  {
    assert AnnOk(s, a);
  }

  // A timer step brings its own announcer closer to being established and moves
  // no other announcer back.
  lemma FireLowersRanks(s: State, a: Announcer)
    requires Inv(s) && a in s.anns && s.anns[a].timer != Off && CanFire(s, a)
    ensures Fire(s, a).anns.Keys == s.anns.Keys
    ensures Rank(Fire(s, a).anns[a]) < Rank(s.anns[a]) <= 9
    ensures forall b :: b in s.anns ==> Rank(Fire(s, a).anns[b]) <= Rank(s.anns[b])
  {
    ArmedPhase(s, a);
    hide Inv, CheckProbed, ViewOk, ProbingDone, CanFire;
    if s.anns[a].phase == Probing && s.anns[a].n >= 4 {
      DoneLowersRanks(s, a);
    }
  }

  lemma DoneLowersRanks(s: State, a: Announcer)
    requires CanFire(s, a) && s.anns[a].phase == Probing && s.anns[a].n == 4
    ensures ProbingDone(s, a).anns.Keys == s.anns.Keys && Rank(ProbingDone(s, a).anns[a]) < Rank(s.anns[a])
    ensures forall b :: b in s.anns ==> Rank(ProbingDone(s, a).anns[b]) <= Rank(s.anns[b])
  {
    hide CheckProbed;
    var t := LeaveCounter(s, a);
    assert t.anns.Keys == s.anns.Keys;
    if t.anns[a].phase == Waiting {
      CheckLowersRanks(t, a.entry.group, true);
    }
  }

  // Timer steps never touch the ledger, never leave the registered state, and
  // never get a group with lost probes out of the registering state.
  lemma FireKeepsLedger(s: State, a: Announcer, g: Group)
    requires CanFire(s, a) && s.anns[a].timer != Off && g in s.groups
    requires forall h :: h in s.groups ==> GroupOk(s, h)
    requires AnnOk(s, a)
    ensures g in Fire(s, a).groups
    ensures var v, w := s.groups[g], Fire(s, a).groups[g];
            && w.lost == v.lost
            && (v.state != Registering ==> w.state == v.state)
            && (v.state == Registering && v.lost > 0 ==> w.state == Registering)
            && (v.state == Registering ==> w.state in {Registering, Registered})
            && (w.registerTimer ==> v.registerTimer)
  {
    assert GroupOk(s, g);
    if InGroup(a, g) && s.anns[a].phase == Probing && s.anns[a].n >= 4 {
      assert a in ProbingIn(s.anns, g);
      assert s.groups[g].nProbing > s.groups[g].lost;
    }
  }

  // Nothing but timers: each announcer in the list has its timer set when its turn comes.
  ghost predicate IsTimerRun(s: State, fired: seq<Announcer>)
    requires Inv(s)
    decreases |fired|
  {
    fired != [] ==>
      && fired[0] in s.anns && s.anns[fired[0]].timer != Off
      && (FireReady(s, fired[0]); FireKeepsInv(s, fired[0]); IsTimerRun(Fire(s, fired[0]), fired[1..]))
  }

  ghost function AfterTimers(s: State, fired: seq<Announcer>): (t: State)
    requires Inv(s) && IsTimerRun(s, fired)
    ensures Inv(t)
    decreases |fired|
  {
    if fired == [] then s
    else
      FireReady(s, fired[0]);
      FireKeepsInv(s, fired[0]);
      AfterTimers(Fire(s, fired[0]), fired[1..])
  }

  ghost predicate Quiescent(s: State) {
    forall a :: a in s.anns ==> s.anns[a].timer == Off
  }

  // Left alone, the announcers fall silent: no run of timer steps is longer than the measure.
  lemma {:induction false} TimerRunsEnd(s: State, fired: seq<Announcer>)
    requires Inv(s) && IsTimerRun(s, fired)
    ensures |fired| + Measure(AfterTimers(s, fired)) <= Measure(s)
    decreases |fired|
  {
    if fired != [] {
      var a := fired[0];
      FireReady(s, a);
      FireKeepsInv(s, a);
      FireLowersRanks(s, a);
      RankSumDrops(s, Fire(s, a), a, 9);
      TimerRunsEnd(Fire(s, a), fired[1..]);
    }
  }

  // The announcers that a step starts anew.
  ghost function Started(step: Step): set<Announcer> {
    match step
    case Join(A) => A
    case RealCommit(_, A) => A
    case Reannounce(A) => A
    case Conflict(a) => {a}
    case _ => {}
  }

  // Whoever is not started anew does not gain a rank.
  ghost predicate NoneRises(s: State, t: State, A: set<Announcer>) {
    && t.anns.Keys <= s.anns.Keys + A
    && forall b :: b in t.anns && b !in A ==> Rank(t.anns[b]) <= Rank(s.anns[b])
  }

  lemma {:induction false} RankSumGrows(s: State, t: State, A: set<Announcer>, k: nat)
    requires NoneRises(s, t, A)
    ensures RankSum(t, k) <= RankSum(s, k) + k * |A|
  {
    if k > 0 {
      hide Rank;
      assert AtLeast(t, k) <= AtLeast(s, k) + A;
      hide AtLeast, NoneRises;
      RankSumGrows(s, t, A, k - 1);
      CountOfUnion(AtLeast(t, k), AtLeast(s, k), A);
      assert k * |A| == (k - 1) * |A| + |A|;
    }
  }

  lemma CountOfUnion<T>(S: set<T>, A: set<T>, B: set<T>)
    requires S <= A + B
    ensures |S| <= |A| + |B|
  {
    SubsetCardinality(S, A + B);
    assert A + B == A + (B - A);
    SubsetCardinality(B - A, B);
  }

  lemma CommitRaisesNone(s: State, g: Group, A: set<Announcer>)
    requires g in s.groups
    ensures NoneRises(s, Commit(s, g, A), A)
  {
    hide CheckProbed, Commit, Rank;
    var held := Hold(s, g);
    AddKeepsGroupKeys(held, A);
    var t := ClearTimer(AddAll(held, A), g);
    assert NoneRises(s, t, A);
    CheckLowersRanks(t, g, false);
    CommitAsSteps(s, g, A);
  }

  lemma NextRaisesNone(s: State, step: Step)
    requires Inv(s) && Enabled(s, step) && Safe(s, step)
    ensures NoneRises(s, Next(s, step), Started(step))
  {
    hide Rank;
    match step {
      case TimerFires(a) =>
        hide Fire, Inv;
        FireLowersRanks(s, a);
      case RealCommit(g, A) =>
        hide Commit, Inv;
        CommitRaisesNone(s, g, A);
      case _ => hide Inv;
    }
  }

  // A timer step takes one from the measure; any other step adds at most nine for each
  // announcer that it starts anew.
  lemma NextMeasure(s: State, step: Step)
    requires Inv(s) && Enabled(s, step) && Safe(s, step)
    ensures Measure(Next(s, step)) + (if step.TimerFires? then 1 else 0) <= Measure(s) + 9 * |Started(step)|
  {
    NextRaisesNone(s, step);
    RankSumGrows(s, Next(s, step), Started(step), 9);
    if step.TimerFires? {
      hide Fire, Inv;
      FireLowersRanks(s, step.a);
      RankSumDrops(s, Fire(s, step.a), step.a, 9);
    }
  }

  // Nothing but timers asked for
  predicate IsSilent(events: seq<Event>) {
    forall i :: 0 <= i < |events| ==> events[i].Arm?
  }

  predicate SentNothing(v: View) {
    IsSilent(v.probeLog) && IsSilent(v.announceLog)
  }

  lemma StartSendsNothing(p: Phase)
    ensures SentNothing(Start(p))
  {
  }

  lemma AddStartsAnew(s: State, A: set<Announcer>, a: Announcer)
    requires a in A
    ensures a in AddAll(s, A).anns && SentNothing(AddAll(s, A).anns[a])
  {
    StartSendsNothing(InitialPhase(a.entry.flags, Free(s, a)));
    hide Start, SentNothing;
  }

  lemma CheckSendsNothing(s: State, g: Group, a: Announcer)
    requires g in s.groups && a in s.anns && SentNothing(s.anns[a])
    ensures a in CheckProbed(s, g, false).anns && SentNothing(CheckProbed(s, g, false).anns[a])
  {
  }

  lemma CommitStartsAnew(s: State, g: Group, A: set<Announcer>, a: Announcer)
    requires g in s.groups && a in A
    ensures a in Commit(s, g, A).anns && SentNothing(Commit(s, g, A).anns[a])
  {
    hide Commit, AddAll, CheckProbed, SentNothing;
    var held := Hold(s, g);
    AddStartsAnew(held, A, a);
    AddKeepsGroupKeys(held, A);
    CheckSendsNothing(ClearTimer(AddAll(held, A), g), g, a);
    CommitAsSteps(s, g, A);
  }

  lemma ReannounceStartsAnew(s: State, A: set<Announcer>, a: Announcer)
    requires a in A && a in s.anns && Committed(s, a)
    ensures a in ReannounceAll(s, A).anns && SentNothing(ReannounceAll(s, A).anns[a])
  {
    StartSendsNothing(ReannouncedPhase(s.anns[a].phase, a.entry.flags));
    hide Start, SentNothing;
  }

  lemma RestartStartsAnew(s: State, a: Announcer)
    requires CanFire(s, a)
    ensures SentNothing(Restart(s, a).anns[a])
  {
    StartSendsNothing(InitialPhase(a.entry.flags, Free(s, a)));
    hide Start, SentNothing;
  }

  lemma IsCommittedNow(s: State, a: Announcer)
    requires Inv(s) && a in s.anns
    ensures Committed(s, a)
  {
    assert AnnOk(s, a);
  }

  // An announcer that joins, is announced anew or restarts after a conflict has sent nothing.
  lemma NextStartsAnew(s: State, step: Step, a: Announcer)
    requires Inv(s) && Enabled(s, step) && Safe(s, step)
    requires a in Started(step) && a in Next(s, step).anns
    ensures SentNothing(Next(s, step).anns[a])
  {
    hide Inv, Commit, AddAll, Restart, SentNothing, Committed, Fire, CanFire;
    match step {
      case Join(A) => AddStartsAnew(s, A, a);
      case RealCommit(g, A) => CommitStartsAnew(s, g, A, a);
      case Reannounce(A) =>
        assert a in s.anns;
        IsCommittedNow(s, a);
        hide ReannounceAll;
        ReannounceStartsAnew(s, A, a);
      case Conflict(b) => RestartStartsAnew(s, b);
      case _ =>
    }
  }

  // On the track of four announcements
  predicate Slow(v: View) {
    || (v.phase == Announcing && v.n <= 3 && v.secDelay == Power2(v.n) && v.announceLog == Announces([Arm(0)], v.n))
    || (v.phase == Established && v.announceLog == Announces([Arm(0)], 3) + [Announce])
  }

  lemma SlowStep(v: View)
    requires Slow(v) && v.phase == Announcing
    ensures Slow(AnnounceStep(v))
  {
    assert Announces([Arm(0)], v.n + 1) == Announces([Arm(0)], v.n) + [Announce, Arm(Power2(v.n) * 1000)];
  }

  ghost predicate IsSlow(s: State, a: Announcer) {
    a in s.anns ==> Slow(s.anns[a])
  }

  lemma CheckKeepsSlow(s: State, g: Group, immediately: bool, a: Announcer)
    requires g in s.groups && IsSlow(s, a)
    ensures IsSlow(CheckProbed(s, g, immediately), a)
  {
  }

  lemma FireKeepsSlow(s: State, b: Announcer, a: Announcer)
    requires CanFire(s, b) && IsSlow(s, a)
    ensures IsSlow(Fire(s, b), a)
  {
    hide CheckProbed, Slow;
    if a == b {
      SlowPhase(s.anns[a]);
      if s.anns[a].phase == Announcing {
        SlowStep(s.anns[a]);
      }
    } else {
      var v := s.anns[b];
      if v.phase == Waiting {
        CheckKeepsSlow(s, b.entry.group, true, a);
      } else if v.phase == Probing && v.n >= 4 {
        var t := LeaveCounter(s, b);
        assert IsSlow(t, a);
        if t.anns[b].phase == Waiting {
          CheckKeepsSlow(t, b.entry.group, true, a);
        }
      }
    }
  }

  lemma SlowPhase(v: View)
    requires Slow(v)
    ensures v.phase in {Announcing, Established}
  {
  }

  lemma CommitKeepsSlow(s: State, g: Group, A: set<Announcer>, a: Announcer)
    requires g in s.groups && a !in A && IsSlow(s, a)
    ensures IsSlow(Commit(s, g, A), a)
  {
    hide CheckProbed, Commit, Slow;
    var held := Hold(s, g);
    AddKeepsGroupKeys(held, A);
    assert IsSlow(ClearTimer(AddAll(held, A), g), a);
    CheckKeepsSlow(ClearTimer(AddAll(held, A), g), g, false, a);
    CommitAsSteps(s, g, A);
  }

  lemma NextKeepsSlow(s: State, step: Step, a: Announcer)
    requires Enabled(s, step) && Safe(s, step) && a !in Started(step) && IsSlow(s, a)
    ensures IsSlow(Next(s, step), a)
  {
    hide Slow;
    match step {
      case TimerFires(b) =>
        hide Fire;
        FireKeepsSlow(s, b, a);
      case RealCommit(g, A) =>
        hide Commit;
        CommitKeepsSlow(s, g, A, a);
      case _ =>
    }
  }

  // Whoever announces right after its group's commit has been released by it.
  lemma CommitReleasesSlowly(s: State, g: Group, A: set<Announcer>, a: Announcer)
    requires Inv(s) && Enabled(s, RealCommit(g, A)) && InGroup(a, g)
    requires a in Commit(s, g, A).anns && Commit(s, g, A).anns[a].phase == Announcing
    ensures Slow(Commit(s, g, A).anns[a])
  {
    HeldKeepsInv(s, g);
    var held := Hold(s, g);
    assert Enabled(held, Join(A)) by {
      assert forall b :: b in A ==> InGroup(b, g) && Committed(held, b);
    }
    AddKeepsInv(held, A);
    var t := AddAll(held, A);
    CommitKeys(s, g, A);
    assert a in t.anns && AnnOk(t, a);
    AddedGroup(held, A, g);
    hide AddAll, Inv, CheckProbed, Commit, Slow;
    CommitAsSteps(s, g, A);
    CheckReleasesSlowly(ClearTimer(t, g), g, a);
  }

  lemma CheckReleasesSlowly(s: State, g: Group, a: Announcer)
    requires g in s.groups && a in s.anns && ViewOk(s.anns[a]) && s.anns[a].phase != Announcing
    requires CheckProbed(s, g, false).anns[a].phase == Announcing
    ensures Slow(CheckProbed(s, g, false).anns[a])
  {
    assert Announces([Arm(0)], 0) == [Arm(0)] && Power2(0) == 1;
  }

  // Four announcements, and not three, follow the commit of a group that has nothing to
  // probe: the one at once is left to the timer, and not counted.
  lemma {:induction false} RunFourAnnouncements(states: seq<State>, steps: seq<Step>, i: nat, j: nat, a: Announcer)
    requires IsRun(states, steps) && i < j < |states|
    requires steps[i].RealCommit? && InGroup(a, steps[i].g)
    requires a in states[i + 1].anns && states[i + 1].anns[a].phase == Announcing
    requires forall k :: i < k < j ==> a !in Started(steps[k])
    ensures a in states[j].anns && states[j].anns[a].phase == Established ==>
              states[j].anns[a].announceLog == [Arm(0)] + FOUR_ANNOUNCEMENTS
    ensures IsSlow(states[j], a)
  {
    hide *;
    RunIsLong(states, steps);
    RunsAreSafe(states, steps, j - 1);
    if j == i + 1 {
      RunInv(states, steps, i);
      CommitIsNext(states[i], steps[i]);
      CommitReleasesSlowly(states[i], steps[i].g, steps[i].A, a);
      SlowMeans(states[j], a);
    } else {
      RunFourAnnouncements(states, steps, i, j - 1, a);
      NextKeepsSlow(states[j - 1], steps[j - 1], a);
      SlowMeans(states[j], a);
    }
  }

  lemma SlowMeans(s: State, a: Announcer)
    ensures a in s.anns && Slow(s.anns[a]) ==> IsSlow(s, a)
    ensures IsSlow(s, a) && a in s.anns && s.anns[a].phase == Established ==>
              s.anns[a].announceLog == [Arm(0)] + FOUR_ANNOUNCEMENTS
  {
    assert Announces([Arm(0)], 3) + [Announce] == [Arm(0)] + FOUR_ANNOUNCEMENTS;
  }

  lemma CommitIsNext(s: State, step: Step)
    requires step.RealCommit? && Enabled(s, step) && Safe(s, step)
    ensures Enabled(s, RealCommit(step.g, step.A)) && step.g in s.groups && Next(s, step) == Commit(s, step.g, step.A)
  {
  }

  ghost function Fired(steps: seq<Step>): nat {
    if steps == [] then 0 else Fired(steps[..|steps| - 1]) + if steps[|steps| - 1].TimerFires? then 1 else 0
  }

  ghost function Starts(steps: seq<Step>): nat {
    if steps == [] then 0 else Starts(steps[..|steps| - 1]) + |Started(steps[|steps| - 1])|
  }

  // In every run the timers fire at most nine times for each announcer that was started:
  // left alone by their users, the announcers fall silent whatever else goes on.
  lemma {:induction false} RunsFallSilent(states: seq<State>, steps: seq<Step>, i: nat, j: nat)
    requires IsRun(states, steps) && i <= j < |states|
    ensures Fired(steps[i..j]) + Measure(states[j]) <= Measure(states[i]) + 9 * Starts(steps[i..j])
    decreases j
  {
    hide *;
    RunIsLong(states, steps);
    LastCounted(steps, i, j);
    if i < j {
      RunsFallSilent(states, steps, i, j - 1);
      RunMeasure(states, steps, j - 1);
    }
  }

  lemma RunIsLong(states: seq<State>, steps: seq<Step>)
    requires IsRun(states, steps)
    ensures |states| == |steps| + 1
  {
  }

  lemma RunMeasure(states: seq<State>, steps: seq<Step>, i: nat)
    requires IsRun(states, steps) && i < |steps| && i + 1 < |states|
    ensures Measure(states[i + 1]) + (if steps[i].TimerFires? then 1 else 0) <= Measure(states[i]) + 9 * |Started(steps[i])|
  {
    hide *;
    RunInv(states, steps, i);
    RunsAreSafe(states, steps, i);
    NextMeasure(states[i], steps[i]);
  }

  lemma LastCounted(steps: seq<Step>, i: nat, j: nat)
    requires i <= j <= |steps|
    ensures i == j ==> Fired(steps[i..j]) == Starts(steps[i..j]) == 0
    ensures i < j ==> Fired(steps[i..j]) == Fired(steps[i..j - 1]) + (if steps[j - 1].TimerFires? then 1 else 0)
    ensures i < j ==> Starts(steps[i..j]) == Starts(steps[i..j - 1]) + |Started(steps[j - 1])|
  {
    hide Started;
    if i < j {
      assert steps[i..j][..j - i - 1] == steps[i..j - 1];
    }
  }

  // Every timer run can be continued until no timer is left.
  lemma {:induction false} TimerRunsFinish(s: State) returns (fired: seq<Announcer>)
    requires Inv(s)
    ensures IsTimerRun(s, fired) && Quiescent(AfterTimers(s, fired))
    decreases Measure(s)
  {
    if Quiescent(s) {
      fired := [];
    } else {
      var a :| a in s.anns && s.anns[a].timer != Off;
      FireReady(s, a);
      FireKeepsInv(s, a);
      FireLowersRanks(s, a);
      RankSumDrops(s, Fire(s, a), a, 9);
      var rest := TimerRunsFinish(Fire(s, a));
      fired := [a] + rest;
      assert fired[1..] == rest;
    }
  }

  lemma {:induction false} TimersKeepLedger(s: State, fired: seq<Announcer>, g: Group)
    requires Inv(s) && IsTimerRun(s, fired) && g in s.groups
    requires s.groups[g].state in {Registering, Registered} && !s.groups[g].registerTimer
    ensures g in AfterTimers(s, fired).groups
    ensures var v, w := s.groups[g], AfterTimers(s, fired).groups[g];
            && w.lost == v.lost && !w.registerTimer && w.state in {Registering, Registered}
            && (v.state == Registered ==> w.state == Registered)
            && (v.state == Registering && v.lost > 0 ==> w.state == Registering)
    decreases |fired|
  {
    if fired != [] {
      FireReady(s, fired[0]);
      FireKeepsInv(s, fired[0]);
      assert AnnOk(s, fired[0]);
      FireKeepsLedger(s, fired[0], g);
      TimersKeepLedger(Fire(s, fired[0]), fired[1..], g);
    }
  }

  // A registering group with an intact ledger always has a timer to wait for.
  lemma SomeTimerIsArmed(s: State, g: Group) returns (a: Announcer)
    requires Inv(s) && g in s.groups && s.groups[g].state == Registering && !s.groups[g].registerTimer
    requires s.groups[g].lost == 0
    ensures a in s.anns && InGroup(a, g) && s.anns[a].timer != Off
  {
    assert GroupOk(s, g);
    a :| a in ProbingIn(s.anns, g);
    assert AnnOk(s, a);
  }

  // In a quiescent state whatever is not established waits, and it waits for lost probes.
  lemma QuiescentGroup(s: State, g: Group)
    requires Inv(s) && Quiescent(s) && g in s.groups && !s.groups[g].registerTimer
    requires s.groups[g].state == Registered || s.groups[g].lost == 0
    ensures s.groups[g].state != Registering
    ensures forall a :: a in MembersOf(s.anns.Keys, g) ==> s.anns[a].phase == Established
  {
    if s.groups[g].state == Registering {
      var a := SomeTimerIsArmed(s, g);
      assert false;
    }
    forall a | a in MembersOf(s.anns.Keys, g) ensures s.anns[a].phase == Established {
      assert AnnOk(s, a);
    }
  }

  // Progress.  A group whose first check has been made, left to its timers until
  // they are all spent, ends up registered with every announcer established
  // exactly when no announcer of it was freed while probing.
  lemma ProgressIff(s: State, fired: seq<Announcer>, g: Group)
    requires Inv(s) && IsTimerRun(s, fired) && Quiescent(AfterTimers(s, fired))
    requires g in s.groups && s.groups[g].state == Registering && !s.groups[g].registerTimer
    ensures var t := AfterTimers(s, fired);
            && g in t.groups
            && (t.groups[g].state == Registered <==> s.groups[g].lost == 0)
            && (s.groups[g].lost == 0 ==>
                  forall a :: a in MembersOf(t.anns.Keys, g) ==> t.anns[a].phase == Established)
  {
    TimersKeepLedger(s, fired, g);
    if s.groups[g].lost == 0 {
      QuiescentGroup(AfterTimers(s, fired), g);
    }
  }

  lemma CommitOneProber(g: Group, a: Announcer)
    requires InGroup(a, g) && a.entry.flags.Probes()
    ensures Commit(State(map[], map[g := GroupView(Uncommitted, 0, false, 0)]), g, {a}) ==
            State(map[a := Start(Probing)], map[g := GroupView(Registering, 1, false, 0)])
  {
    var s := State(map[], map[g := GroupView(Uncommitted, 0, false, 0)]);
    var held := s.(groups := s.groups[g := s.groups[g].(state := Registering, registerTimer := false)]);
    assert Probers({a}, g) == {a};
    assert AddAll(held, {a}).anns == map[a := Start(Probing)];
    assert AddAll(held, {a}).groups == map[g := GroupView(Registering, 1, false, 0)];
  }

  lemma LoseOneProber(g: Group, a: Announcer)
    requires InGroup(a, g)
    ensures RemoveAll(State(map[a := Start(Probing)], map[g := GroupView(Registering, 1, false, 0)]), {a}) ==
            State(map[], map[g := GroupView(Registering, 1, false, 1)])
  {
    var s := State(map[a := Start(Probing)], map[g := GroupView(Registering, 1, false, 0)]);
    assert ProbingIn(s.anns, g) * {a} == {a};
    assert RemoveAll(s, {a}).anns == map[];
    assert RemoveAll(s, {a}).groups == map[g := GroupView(Registering, 1, false, 1)];
  }

  // A group that registers and has lost a probe.
  ghost predicate Stuck(s: State, g: Group) {
    g in s.groups && s.groups[g].state == Registering && s.groups[g].lost > 0
  }

  lemma CheckKeepsStuck(s: State, h: Group, immediately: bool, g: Group)
    requires h in s.groups && Stuck(s, g) && s.groups[g].lost <= s.groups[g].nProbing
    ensures Stuck(CheckProbed(s, h, immediately), g)
  {
  }

  lemma CommitKeepsStuck(s: State, h: Group, A: set<Announcer>, g: Group)
    requires h in s.groups && Stuck(s, g) && s.groups[g].lost <= s.groups[g].nProbing
    ensures Stuck(Commit(s, h, A), g)
  {
    hide CheckProbed, AddAll, Commit;
    var held := Hold(s, h);
    AddedGroup(held, A, g);
    AddKeepsGroupKeys(held, A);
    CheckKeepsStuck(ClearTimer(AddAll(held, A), h), h, false, g);
    CommitAsSteps(s, h, A);
  }

  lemma FireKeepsStuck(s: State, a: Announcer, g: Group)
    requires Inv(s) && CanFire(s, a) && s.anns[a].timer != Off && Stuck(s, g)
    ensures Stuck(Fire(s, a), g)
  {
    assert AnnOk(s, a);
    hide Fire, AnnOk, GroupOk;
    FireKeepsLedger(s, a, g);
  }

  lemma NextKeepsStuck(s: State, step: Step, g: Group)
    requires Inv(s) && Enabled(s, step) && Safe(s, step)
    requires Stuck(s, g) && !(step.Abandon? && step.g == g)
    ensures Stuck(Next(s, step), g)
  {
    assert s.groups[g].lost <= s.groups[g].nProbing by {
      assert GroupOk(s, g);
    }
    hide Inv, Fire, Commit, AddAll, RemoveAll, ReannounceAll, CanFire;
    match step {
      case TimerFires(a) => FireKeepsStuck(s, a, g);
      case Join(A) => AddedGroup(s, A, g);
      case Leave(A) => RemovedGroup(s, A, g);
      case Reannounce(A) => ReannouncedGroup(s, A, g);
      case RealCommit(h, A) => CommitKeepsStuck(s, h, A, g);
      case _ =>
    }
  }

  // For good: in every run such a group goes on registering until it is reset or
  // withdrawn, whatever else happens in between.
  lemma {:induction false} StuckForGood(states: seq<State>, steps: seq<Step>, i: nat, j: nat, g: Group)
    requires IsRun(states, steps) && i <= j < |states| && Stuck(states[i], g)
    requires forall k :: i <= k < j ==> !(steps[k].Abandon? && steps[k].g == g)
    ensures Stuck(states[j], g)
  {
    if i < j {
      StuckForGood(states, steps, i, j - 1, g);
      RunInv(states, steps, j - 1);
      RunsAreSafe(states, steps, j - 1);
      NextKeepsStuck(states[j - 1], steps[j - 1], g);
    }
  }

  // It happens: one interface going away while its announcer probes leaves such a
  // group, with no announcer left to wait for.
  lemma LostProbeBlocksGroup(g: Group, a: Announcer)
    requires InGroup(a, g) && a.entry.flags.Probes()
    ensures var steps := [NewGroup(g), RealCommit(g, {a}), Leave({a})];
            exists states: seq<State> ::
              && IsRun(states, steps)
              && states[3] == State(map[], map[g := GroupView(Registering, 1, false, 1)])
  {
    hide Commit, AddAll, RemoveAll, CheckProbed;
    var s1 := State(map[], map[g := GroupView(Uncommitted, 0, false, 0)]);
    var s2 := State(map[a := Start(Probing)], map[g := GroupView(Registering, 1, false, 0)]);
    var s3 := State(map[], map[g := GroupView(Registering, 1, false, 1)]);
    assert Takes(EMPTY, NewGroup(g), s1);
    assert Takes(s1, RealCommit(g, {a}), s2) by {
      CommitOneProber(g, a);
    }
    assert Takes(s2, Leave({a}), s3) by {
      LoseOneProber(g, a);
    }
    var states, steps := [EMPTY, s1, s2, s3], [NewGroup(g), RealCommit(g, {a}), Leave({a})];
    forall i | 0 <= i < 3 ensures Takes(states[i], steps[i], states[i + 1]) {
    }
    assert IsRun(states, steps);
  }
}
