/**
 The poll loop as an object with lazily emptied lists and an array rebuilt on demand.
 Each routine does to the object what PollProtocol says it does to its value.
 */
module PollLoop {
  import opened Timevals
  import opened PollTypes
  import opened PollProtocol

  ghost function WatchViews(ws: seq<Watch>): (vs: seq<WatchView>)
    reads ws
    ensures |vs| == |ws|
    ensures forall i :: 0 <= i < |ws| ==> vs[i] == WatchView(ws[i], ws[i].dead, ws[i].idx, ws[i].pollfd)
  {
    seq(|ws|, i requires 0 <= i < |ws| reads ws => WatchView(ws[i], ws[i].dead, ws[i].idx, ws[i].pollfd))
  }

  ghost function TimeoutViews(ts: seq<Timeout>): (vs: seq<TimeoutView>)
    reads ts
    ensures |vs| == |ts|
    ensures forall i :: 0 <= i < |ts| ==> vs[i] == TimeoutView(ts[i], ts[i].dead, ts[i].enabled, ts[i].expiry)
  {
    seq(|ts|, i requires 0 <= i < |ts| reads ts => TimeoutView(ts[i], ts[i].dead, ts[i].enabled, ts[i].expiry))
  }

  ghost function Members(ws: seq<Watch>): (ms: set<Watch>)
    ensures forall i :: 0 <= i < |ws| ==> ws[i] in ms
  {
    set w | w in ws
  }

  class SimplePoll {
    var watches: seq<Watch>
    var timeouts: seq<Timeout>
    var pollfds: array<PollFd>
    var nPollfds: int
    var rebuildPollfds: bool
    var watchReqCleanup: bool
    var timeoutReqCleanup: bool
    var quit: bool
    var eventsValid: bool
    var nWatches: int
    var preparedTimeout: int
    var phase: Phase
    const wakeupFd: int

    ghost predicate InRange()
      reads this
    {
      0 <= nPollfds <= pollfds.Length
    }

    ghost function Snapshot(): Loop
      requires InRange()
      reads this, watches, timeouts, pollfds
    {
      Loop(WatchViews(watches), TimeoutViews(timeouts), pollfds[..nPollfds], nWatches, rebuildPollfds,
           watchReqCleanup, timeoutReqCleanup, quit, eventsValid, preparedTimeout, phase)
    }

    ghost predicate Valid()
      reads this, watches, timeouts, pollfds
    {
      InRange() && Inv(Snapshot(), wakeupFd)
    }

    // avahi_simple_poll_new
    constructor (wakeupFd: int)
      ensures Valid() && Snapshot() == NEW_LOOP
    {
      watches, timeouts, nPollfds, rebuildPollfds := [], [], 0, true;
      watchReqCleanup, timeoutReqCleanup, quit, eventsValid := false, false, false, false;
      nWatches, preparedTimeout, phase := 0, 0, Init;
      pollfds := new PollFd[0];
      this.wakeupFd := wakeupFd;
    }

    // watch_new
    method WatchNew(fd: int, events: int) returns (w: Watch)
      requires Valid() && fd >= 0
      modifies this
      ensures fresh(w) && pollfds == old(pollfds)
      ensures watches == [w] + old(watches) && rebuildPollfds
      ensures !w.dead && w.idx == -1 && w.pollfd == PollFd(fd, events, 0)
      ensures Valid() && Snapshot() == PollProtocol.WatchNew(old(Snapshot()), w, fd, events)
    {
      w := new Watch(fd, events);
      ghost var s, ws := Snapshot(), watches;
      WatchNewKeepsInv(s, wakeupFd, w, fd, events);
      assert PollProtocol.WatchNew(s, w, fd, events) ==
        s.(watches := [WatchView(w, false, -1, PollFd(fd, events, 0))] + s.watches, nWatches := s.nWatches + 1,
           rebuild := true);
      hide *;
      InvInRange();
      SnapshotIs();
      rebuildPollfds := true;
      watches := [w] + watches;
      nWatches := nWatches + 1;
      WatchAdded(w, ws);
      IsInRange();
      SnapshotIs();
      IsValid(PollProtocol.WatchNew(s, w, fd, events));
    }

    method SetEvents(w: Watch, ghost k: nat, events: int)
      requires k < |watches| && watches[k] == w
      requires forall i :: 0 <= i < |watches| && i != k ==> WatchViews(watches)[i].id != w
      modifies w`pollfd
      ensures w.pollfd == old(w.pollfd).(events := events)
      ensures WatchViews(watches) == old(WatchViews(watches))[k := old(WatchViews(watches))[k].(pollfd := w.pollfd)]
    {
      w.pollfd := w.pollfd.(events := events);
    }

    // watch_update
    method WatchUpdate(w: Watch, ghost k: nat, events: int)
      requires Valid() && k < |watches| && watches[k] == w && !w.dead
      modifies this`rebuildPollfds, w`pollfd, pollfds
      ensures w.pollfd == old(w.pollfd).(events := events)
      ensures if w.idx == -1 then rebuildPollfds && pollfds[..] == old(pollfds[..])
              else 0 < w.idx < nPollfds <= pollfds.Length && pollfds[..] == old(pollfds[..])[w.idx := w.pollfd]
      ensures Valid() && Snapshot() == PollProtocol.WatchUpdate(old(Snapshot()), k, events)
    {
      ghost var s := Snapshot();
      hide *;
      InvInRange();
      SnapshotIs();
      UpdateIs(s, wakeupFd, k, events);
      SetEvents(w, k, events);
      if w.idx != -1 {
        pollfds[w.idx] := w.pollfd;
        assert pollfds[..nPollfds] == s.slots[w.idx := w.pollfd];
      } else {
        rebuildPollfds := true;
      }
      IsInRange();
      SnapshotIs();
      IsValid(PollProtocol.WatchUpdate(s, k, events));
    }

    // watch_get_events
    method WatchEvents(w: Watch, ghost k: nat) returns (events: int)
      requires Valid() && k < |watches| && watches[k] == w && !w.dead
      ensures events == Events(Snapshot(), k)
    {
      ghost var s := Snapshot();
      assert s.watches[k] == WatchView(w, w.dead, w.idx, w.pollfd);
      assert w.idx != -1 ==> IsIndexed(s.watches[k]) && Fits(s.watches[k], s.slots);
      events := 0;
      if w.idx != -1 && eventsValid {
        events := pollfds[w.idx].revents;
      }
    }

    // watch_free
    method WatchFree(w: Watch, ghost k: nat)
      requires Valid() && k < |watches| && watches[k] == w && !w.dead
      modifies this`rebuildPollfds, this`nWatches, this`watchReqCleanup, w`dead
      ensures w.dead && watchReqCleanup && nWatches == old(nWatches) - 1 && (w.idx != -1 ==> rebuildPollfds)
      ensures Valid() && Snapshot() == PollProtocol.WatchFree(old(Snapshot()), k)
    {
      ghost var s := Snapshot();
      hide *;
      InvInRange();
      SnapshotIs();
      FreeIs(s, wakeupFd, k);
      if w.idx != -1 {
        rebuildPollfds := true;
      }
      w.dead := true;
      nWatches := nWatches - 1;
      watchReqCleanup := true;
      assert WatchViews(watches) == s.watches[k := s.watches[k].(dead := true)];
      IsInRange();
      SnapshotIs();
      IsValid(PollProtocol.WatchFree(s, k));
    }

    // timeout_new
    method TimeoutNew(tv: Expiry) returns (t: Timeout)
      requires Valid()
      modifies this`timeouts
      ensures fresh(t) && timeouts == [t] + old(timeouts) && !t.dead && t.enabled == tv.At?
      ensures Valid() && Snapshot() == PollProtocol.TimeoutNew(old(Snapshot()), TimeoutView(t, false, tv.At?, t.expiry))
      ensures tv.At? ==> t.expiry == tv.time
    {
      t := new Timeout(tv);
      ghost var v := TimeoutView(t, false, tv.At?, t.expiry);
      TimeoutNewKeepsInv(Snapshot(), wakeupFd, v);
      hide Inv;
      timeouts := [t] + timeouts;
      assert TimeoutViews(timeouts) == [v] + old(TimeoutViews(timeouts));
    }

    // timeout_update
    method TimeoutUpdate(t: Timeout, ghost k: nat, tv: Expiry)
      requires Valid() && k < |timeouts| && timeouts[k] == t && !t.dead
      modifies t`enabled, t`expiry
      ensures t.enabled == tv.At? && t.expiry == if tv.At? then tv.time else old(t.expiry)
      ensures Valid() && Snapshot() == PollProtocol.TimeoutUpdate(old(Snapshot()), k, tv)
    {
      ghost var s := Snapshot();
      TimeoutChangeKeepsInv(s, wakeupFd, k, Reset(s.timeouts[k], tv));
      OthersAt(s.timeouts, k);
      hide Inv;
      t.enabled := tv.At?;
      if tv.At? {
        t.expiry := tv.time;
      }
      assert TimeoutViews(timeouts) == s.timeouts[k := Reset(s.timeouts[k], tv)];
    }

    // timeout_free
    method TimeoutFree(t: Timeout, ghost k: nat)
      requires Valid() && k < |timeouts| && timeouts[k] == t && !t.dead
      modifies this`timeoutReqCleanup, t`dead
      ensures t.dead && timeoutReqCleanup
      ensures Valid() && Snapshot() == PollProtocol.TimeoutFree(old(Snapshot()), k)
    {
      ghost var s := Snapshot();
      TimeoutFreeKeepsInv(s, wakeupFd, k);
      OthersAt(s.timeouts, k);
      hide Inv;
      t.dead := true;
      timeoutReqCleanup := true;
      assert TimeoutViews(timeouts) == s.timeouts[k := s.timeouts[k].(dead := true)];
    }

    // cleanup_watches: takes the dead ones out of the list
    method CleanupWatches()
      requires InRange()
      modifies this`watches, this`rebuildPollfds, this`timeoutReqCleanup
      ensures InRange() && Snapshot() == PollProtocol.CleanupWatches(old(Snapshot()))
      ensures Members(watches) <= old(Members(watches))
    {
      ghost var vs, flag := WatchViews(watches), rebuildPollfds;
      hide Cleaning, LiveWatches, HoldsDeadEntry;
      CleaningStarts(vs, flag);
      var i := 0;
      while i < |watches|
        invariant 0 <= i <= |watches|
        invariant Members(watches) <= old(Members(watches))
        invariant Cleaning(vs, flag, WatchViews(watches), rebuildPollfds, i)
        decreases |watches| - i
      {
        CleaningStep(vs, flag, WatchViews(watches), rebuildPollfds, i);
        if watches[i].dead {
          if watches[i].idx != -1 {
            rebuildPollfds := true;
          }
          RemoveView(watches, i);
          watches := watches[..i] + watches[i + 1..];
        } else {
          i := i + 1;
        }
      }
      CleaningEnds(vs, flag, WatchViews(watches), rebuildPollfds, i);
      timeoutReqCleanup := false;
    }

    // cleanup_timeouts, likewise
    method CleanupTimeouts()
      requires InRange()
      modifies this`timeouts, this`timeoutReqCleanup
      ensures InRange() && Snapshot() == PollProtocol.CleanupTimeouts(old(Snapshot()))
    {
      ghost var vs := TimeoutViews(timeouts);
      hide LiveTimeouts;
      var i := 0;
      while i < |timeouts|
        invariant 0 <= i <= |timeouts|
        invariant LiveTimeouts(TimeoutViews(timeouts)) == LiveTimeouts(vs)
        invariant forall j :: 0 <= j < i ==> !timeouts[j].dead
        decreases |timeouts| - i
      {
        if timeouts[i].dead {
          RemoveDeadTimeout(TimeoutViews(timeouts), i);
          RemoveTimeoutView(timeouts, i);
          timeouts := timeouts[..i] + timeouts[i + 1..];
        } else {
          i := i + 1;
        }
      }
      LiveTimeoutsPart(TimeoutViews(timeouts));
      timeoutReqCleanup := false;
    }

    method GiveEntry(w: Watch, ghost k: nat, idx: nat)
      requires k < |watches| && w == watches[k] && 0 < idx < pollfds.Length && DistinctWatches(WatchViews(watches))
      modifies w`idx, pollfds
      ensures var vs := old(WatchViews(watches)); WatchViews(watches) == vs[k := vs[k].(idx := idx)]
      ensures pollfds[..] == old(pollfds[..])[idx := w.pollfd]
      ensures TimeoutViews(timeouts) == old(TimeoutViews(timeouts))
    {
      ghost var vs := WatchViews(watches);
      assert forall i :: 0 <= i < |watches| && i != k ==> watches[i] != watches[k] by {
        assert forall i :: 0 <= i < |watches| ==> vs[i].id == watches[i];
      }
      w.idx := idx;
      pollfds[idx] := w.pollfd;
    }

    // The loop of rebuild
    method GiveEntries() returns (idx: nat)
      requires Alive(WatchViews(watches)) < pollfds.Length && DistinctWatches(WatchViews(watches))
      modifies pollfds, Members(watches)
      ensures WatchViews(watches) == Numbered(old(WatchViews(watches)), 1)
      ensures TimeoutViews(timeouts) == old(TimeoutViews(timeouts))
      ensures idx <= pollfds.Length && pollfds[..idx] == [PollFd(wakeupFd, POLLIN, 0)] + Entries(old(WatchViews(watches)))
    {
      ghost var vs, ts := WatchViews(watches), TimeoutViews(timeouts);
      pollfds[0] := PollFd(wakeupFd, POLLIN, 0);
      var i := 0;
      idx := 1;
      hide Numbering, Alive, Numbered, Entries, DistinctWatches, Members;
      NumberingStarts(vs, pollfds[..]);
      while i < |watches|
        invariant 0 <= i <= |watches| && 1 <= idx <= pollfds.Length
        invariant pollfds[0] == PollFd(wakeupFd, POLLIN, 0)
        invariant Numbering(vs, WatchViews(watches), pollfds[..], idx, i)
        invariant DistinctWatches(WatchViews(watches))
        invariant TimeoutViews(timeouts) == ts
      {
        NumberingStep(vs, WatchViews(watches), pollfds[..], idx, i);
        if !watches[i].dead {
          StillDistinct(WatchViews(watches), i, idx);
          GiveEntry(watches[i], i, idx);
          idx := idx + 1;
        }
        i := i + 1;
      }
      NumberingEnds(vs, WatchViews(watches), pollfds[..], idx, i);
      assert pollfds[..][..idx] == pollfds[..idx];
    }

    method Grow()
      requires 0 <= nWatches
      modifies this`pollfds
      ensures nWatches < pollfds.Length && (pollfds == old(pollfds) || fresh(pollfds))
    {
      if nWatches + 1 > pollfds.Length {
        pollfds := new PollFd[nWatches + 10];
      }
    }

    // rebuild: the array grows if it must, and the live watches take its entries in turn.
    method Rebuild()
      requires InRange() && nWatches == Alive(WatchViews(watches))
      requires DistinctWatches(WatchViews(watches))
      modifies this`pollfds, this`nPollfds, this`eventsValid, this`rebuildPollfds, pollfds, Members(watches)
      ensures InRange() && Snapshot() == PollProtocol.Rebuild(old(Snapshot()), wakeupFd)
    {
      hide *;
      RebuildIs(Snapshot(), wakeupFd);
      SnapshotIs();
      Grow();
      nPollfds := GiveEntries();
      eventsValid := false;
      rebuildPollfds := false;
      IsInRange();
      SnapshotIs();
    }

    lemma IsInRange()
      requires 0 <= nPollfds <= pollfds.Length
      ensures InRange()
    {
    }

    lemma InvInRange()
      requires Valid()
      ensures InRange() && Inv(Snapshot(), wakeupFd)
    {
    }

    lemma IsValid(s: Loop)
      requires InRange() && Snapshot() == s && Inv(s, wakeupFd)
      ensures Valid()
    {
    }

    lemma SnapshotIs()
      requires InRange()
      ensures 0 <= nPollfds <= pollfds.Length
      ensures Snapshot() ==
        Loop(WatchViews(watches), TimeoutViews(timeouts), pollfds[..nPollfds], nWatches, rebuildPollfds,
             watchReqCleanup, timeoutReqCleanup, quit, eventsValid, preparedTimeout, phase)
    {
    }

    // find_next_timeout
    method FindNextTimeout() returns (n: int)
      ensures n == Next(TimeoutViews(timeouts))
    {
      n := -1;
      ghost var vs := TimeoutViews(timeouts);
      assert vs[..0] == [];
      var i := 0;
      while i < |timeouts|
        invariant 0 <= i <= |timeouts|
        invariant n == Next(vs[..i])
      {
        assert vs[..i + 1][..i] == vs[..i];
        var t := timeouts[i];
        if !t.dead && t.enabled && (n < 0 || Compare(t.expiry, timeouts[n].expiry) < 0) {
          n := i;
        }
        i := i + 1;
      }
      assert vs[..i] == vs;
    }

    // avahi_simple_poll_quit
    method RequestQuit()
      requires Valid()
      modifies this`quit
      ensures Valid() && Snapshot() == old(Snapshot()).(quit := true)
    {
      FlagsKeepInv(Snapshot(), Snapshot().(quit := true), wakeupFd);
      hide Inv, WatchViews, TimeoutViews;
      quit := true;
    }

    // Both cleanups, as far as the flags ask for them
    method Cleanup()
      requires InRange()
      modifies this`watches, this`timeouts, this`rebuildPollfds, this`timeoutReqCleanup
      ensures InRange() && Snapshot() == PollProtocol.Cleanup(old(Snapshot())) && quit == old(quit)
      ensures Members(watches) <= old(Members(watches))
    {
      hide PollProtocol.CleanupWatches, PollProtocol.CleanupTimeouts, WatchViews, TimeoutViews;
      if watchReqCleanup {
        CleanupWatches();
      }
      if timeoutReqCleanup {
        CleanupTimeouts();
      }
    }

    // The end of the preparation: how long to sleep
    method FindSleep(wait: int, now: Timeval) returns (timeout: int)
      ensures timeout == Sleep(TimeoutViews(timeouts), wait, now)
    {
      ghost var vs := TimeoutViews(timeouts);
      timeout := wait;
      var n := FindNextTimeout();
      if n >= 0 {
        var expiry := timeouts[n].expiry;
        assert expiry == vs[n].expiry;
        if expiry == Timeval(0, 0) {
          timeout := 0;
        } else {
          var usec := Diff(expiry, now);
          if usec <= 0 {
            timeout := 0;
          } else {
            var t := Int32(Int32(usec / 1000) + 1);
            if timeout < 0 || timeout > t {
              timeout := t;
            }
          }
        }
      }
      return timeout;
    }

    method RebuildIfAsked()
      requires InRange() && nWatches == Alive(WatchViews(watches)) && DistinctWatches(WatchViews(watches))
      modifies this`pollfds, this`nPollfds, this`eventsValid, this`rebuildPollfds, pollfds, Members(watches)
      ensures InRange()
      ensures Snapshot() == if old(rebuildPollfds) then PollProtocol.Rebuild(old(Snapshot()), wakeupFd) else old(Snapshot())
    {
      hide *;
      if rebuildPollfds {
        Rebuild();
      }
    }

    method SetSleep(wait: int, now: Timeval)
      requires InRange()
      modifies this`preparedTimeout, this`phase
      ensures InRange()
      ensures var s := old(Snapshot());
        Snapshot() == s.(preparedTimeout := Sleep(s.timeouts, wait, now), phase := Prepared)
    {
      hide *;
      SnapshotIs();
      preparedTimeout := FindSleep(wait, now);
      phase := Prepared;
      IsInRange();
      SnapshotIs();
    }

    method SetPhase(p: Phase)
      requires InRange()
      modifies this`phase
      ensures InRange() && phase == p && Snapshot() == old(Snapshot()).(phase := p)
    {
      hide *;
      SnapshotIs();
      phase := p;
      IsInRange();
      SnapshotIs();
    }

    // avahi_simple_poll_prepare. The clock is an argument.
    method Prepare(wait: int, now: Timeval) returns (r: int)
      requires Valid() && phase in {Init, Dispatched, Failure}
      modifies this, pollfds, Members(watches)
      ensures Valid() && Snapshot() == PollProtocol.Prepare(old(Snapshot()), wakeupFd, wait, now)
      ensures r == if old(quit) then 1 else 0
    {
      ghost var s := Snapshot();
      InvInRange();
      PrepareSettles(s, wakeupFd, wait, now);
      CleanupParts(s, wakeupFd);
      PrepareIs(s, wakeupFd, wait, now);
      hide *;
      SetPhase(Preparing);
      Cleanup();
      SnapshotIs();
      if quit {
        SetPhase(Phase.Quit);
        r := 1;
      } else {
        RebuildIfAsked();
        SetSleep(wait, now);
        r := 0;
      }
      IsValid(PollProtocol.Prepare(s, wakeupFd, wait, now));
    }

    // The poll function: stores the events that happened.
    method Poll(revents: seq<int>)
      requires InRange() && |revents| == nPollfds
      modifies pollfds
      ensures InRange()
      ensures Snapshot() == old(Snapshot()).(slots := Polled(old(Snapshot()).slots, revents))
    {
      ghost var slots := pollfds[..nPollfds];
      var i := 0;
      while i < nPollfds
        invariant 0 <= i <= nPollfds <= pollfds.Length
        invariant forall j :: 0 <= j < nPollfds ==>
          pollfds[j] == if j < i then slots[j].(revents := revents[j]) else slots[j]
      {
        pollfds[i] := pollfds[i].(revents := revents[i]);
        i := i + 1;
      }
      assert pollfds[..nPollfds] == Polled(slots, revents);
      hide Polled, WatchViews, TimeoutViews;
    }

    // avahi_simple_poll_run, with what the poll function reports
    method Run(failed: bool, revents: seq<int>) returns (r: int)
      requires Valid() && phase in {Prepared, Failure} && |revents| == nPollfds
      modifies this`phase, this`eventsValid, pollfds
      ensures Valid()
      ensures Snapshot() == if failed then RunFails(old(Snapshot())) else PollProtocol.Run(old(Snapshot()), revents)
      ensures r == if failed then -1 else 0
    {
      ghost var s := Snapshot();
      RunKeepsInv(s, wakeupFd, revents);
      FlagsKeepInv(s, RunFails(s), wakeupFd);
      assert PollProtocol.Run(s, revents) == s.(slots := Polled(s.slots, revents), eventsValid := true, phase := Ran);
      InvInRange();
      assert |revents| == |s.slots| && RunFails(s) == s.(phase := Failure);
      hide *;
      SetPhase(if failed then Failure else Running);
      if failed {
        r := -1;
      } else {
        SnapshotIs();
        Poll(revents);
        EventsAreValid();
        SetPhase(Ran);
        r := 0;
      }
      IsValid(if failed then RunFails(s) else PollProtocol.Run(s, revents));
    }

    method EventsAreValid()
      requires InRange()
      modifies this`eventsValid
      ensures InRange() && Snapshot() == old(Snapshot()).(eventsValid := true)
    {
      hide *;
      SnapshotIs();
      eventsValid := true;
      IsInRange();
      SnapshotIs();
    }

    // The search of a dispatch for a watch with events
    method FindReadyWatch() returns (ok: bool, k: int)
      requires InRange()
      ensures var r := FindReady(Snapshot().watches, Snapshot().slots);
        ok == !r.Refused? && k == if r.Ready? then r.k else -1
    {
      ghost var vs, slots := WatchViews(watches), pollfds[..nPollfds];
      assert vs[0..] == vs;
      var i := 0;
      while i < |watches|
        invariant 0 <= i <= |watches|
        invariant FindReady(vs, slots) == Later(FindReady(vs[i..], slots), i)
      {
        assert vs[i..][1..] == vs[i + 1..];
        var w := watches[i];
        if !w.dead {
          if !(w.idx >= 0 && w.idx < nPollfds) {
            return false, -1;
          }
          assert pollfds[w.idx] == slots[w.idx];
          if pollfds[w.idx].revents != 0 {
            return true, i;
          }
        }
        i := i + 1;
      }
      return true, -1;
    }

    // avahi_simple_poll_dispatch, up to the callback it makes; not ok is a failed assertion.
    method Dispatch(now: Timeval) returns (ok: bool, callback: Callback)
      requires Valid() && phase == Ran
      modifies this`phase, TimeoutMembers(timeouts)
      ensures if ok then Valid() && PollProtocol.Dispatch(old(Snapshot()), now) == Calls(Snapshot(), callback)
              else PollProtocol.Dispatch(old(Snapshot()), now) == AssertionFails
    {
      ghost var s := Snapshot();
      hide *;
      InvInRange();
      DispatchIs(s, wakeupFd, now);
      SnapshotIs();
      ok, callback := DispatchTimeout(now);
      if !ok {
        ok, callback := DispatchWatch();
        if !ok {
          return;
        }
      }
      SetPhase(Dispatched);
      IsValid(PollProtocol.Dispatch(s, now).loop);
    }

    // The callback of the next timeout, if it is due
    method DispatchTimeout(now: Timeval) returns (due: bool, callback: Callback)
      requires InRange() && DistinctTimeouts(TimeoutViews(timeouts))
      modifies TimeoutMembers(timeouts)
      ensures InRange() && due == TimeoutIsDue(old(Snapshot()), now)
      ensures Snapshot() == if due then WithoutNext(old(Snapshot())) else old(Snapshot())
      ensures due ==> callback == NextCallback(old(Snapshot()))
    {
      hide Next;
      var n := FindNextTimeout();
      due, callback := false, Nothing;
      if n >= 0 {
        var t := timeouts[n];
        if t.expiry == Timeval(0, 0) || Diff(now, t.expiry) >= 0 {
          due, callback := true, OnTimeout(t);
          Disable(t, n);
        }
      }
    }

    // The callback of the first watch with events
    method DispatchWatch() returns (ok: bool, callback: Callback)
      requires InRange()
      ensures ok == !Refuses(Snapshot())
      ensures ok ==> callback == WatchCallback(Snapshot())
    {
      var k;
      ok, k := FindReadyWatch();
      callback := Nothing;
      if k >= 0 {
        ghost var s := Snapshot();
        assert FindReady(s.watches, s.slots) == Ready(k);
        assert s.watches[k] == WatchView(watches[k], watches[k].dead, watches[k].idx, watches[k].pollfd);
        assert s.slots[watches[k].idx] == pollfds[watches[k].idx];
        callback := OnWatch(watches[k], watches[k].pollfd.fd, pollfds[watches[k].idx].revents);
      }
    }

    // What a timeout undergoes before its callback
    method Disable(t: Timeout, ghost n: nat)
      requires InRange() && n < |timeouts| && t == timeouts[n] && DistinctTimeouts(TimeoutViews(timeouts))
      modifies t`enabled
      ensures InRange()
      ensures var s := old(Snapshot()); Snapshot() == s.(timeouts := s.timeouts[n := s.timeouts[n].(enabled := false)])
    {
      ghost var ts := TimeoutViews(timeouts);
      OthersAt(ts, n);
      SnapshotIs();
      hide Snapshot;
      t.enabled := false;
      assert TimeoutViews(timeouts) == ts[n := ts[n].(enabled := false)];
      SnapshotIs();
    }
  }

  ghost function TimeoutMembers(ts: seq<Timeout>): (ms: set<Timeout>)
    ensures forall i :: 0 <= i < |ts| ==> ts[i] in ms
  {
    set t | t in ts
  }

  function WithoutNext(s: Loop): Loop {
    var n := Next(s.timeouts);
    if n < 0 then s else s.(timeouts := s.timeouts[n := s.timeouts[n].(enabled := false)])
  }

  function NextCallback(s: Loop): Callback {
    var n := Next(s.timeouts);
    if n < 0 then Nothing else OnTimeout(s.timeouts[n].id)
  }

  predicate Refuses(s: Loop) {
    FindReady(s.watches, s.slots).Refused?
  }

  function WatchCallback(s: Loop): Callback {
    var r := FindReady(s.watches, s.slots);
    if !r.Ready? then Nothing
    else OnWatch(s.watches[r.k].id, s.watches[r.k].pollfd.fd, s.slots[s.watches[r.k].idx].revents)
  }

  // A dispatch in its parts
  lemma DispatchIs(s: Loop, wakeup: int, now: Timeval)
    requires Inv(s, wakeup)
    ensures DistinctTimeouts(s.timeouts)
    ensures PollProtocol.Dispatch(s, now).Calls? ==> Inv(PollProtocol.Dispatch(s, now).loop, wakeup)
    ensures PollProtocol.Dispatch(s, now) ==
      if TimeoutIsDue(s, now) then Calls(WithoutNext(s).(phase := Dispatched), NextCallback(s))
      else if Refuses(s) then AssertionFails
      else Calls(s.(phase := Dispatched), WatchCallback(s))
  {
    if PollProtocol.Dispatch(s, now).Calls? {
      DispatchKeepsInv(s, wakeup, now);
    }
    hide AllFit, OwnEntries, NewestFirst, Alive, DistinctWatches, AllAlive, AllTimeoutsAlive, Settled, Next, FindReady;
  }

  function Later(r: Search, i: nat): Search {
    if r.Ready? then Ready(r.k + i) else r
  }

  lemma CleanupParts(s: Loop, wakeup: int)
    requires Inv(s, wakeup)
    ensures var t := PollProtocol.Cleanup(s);
      t.nWatches == Alive(t.watches) && DistinctWatches(t.watches)
    ensures PollProtocol.Cleanup(s.(phase := Preparing)) == PollProtocol.Cleanup(s).(phase := Preparing)
  {
    CleanupKeepsInv(s, wakeup);
  }

  lemma PrepareIs(s: Loop, wakeup: int, wait: int, now: Timeval)
    ensures var t := PollProtocol.Cleanup(s).(phase := Preparing);
      var u := if t.rebuild then PollProtocol.Rebuild(t, wakeup) else t;
      PollProtocol.Prepare(s, wakeup, wait, now) ==
        if t.quit then t.(phase := Phase.Quit)
        else u.(preparedTimeout := Sleep(u.timeouts, wait, now), phase := Prepared)
  {
  }

  lemma UpdateIs(s: Loop, wakeup: int, k: nat, events: int)
    requires Inv(s, wakeup) && k < |s.watches| && !s.watches[k].dead
    ensures forall i :: 0 <= i < |s.watches| && i != k ==> s.watches[i].id != s.watches[k].id
    ensures s.watches[k].idx != -1 ==> 1 <= s.watches[k].idx < |s.slots|
    ensures Inv(PollProtocol.WatchUpdate(s, k, events), wakeup)
    ensures var v := s.watches[k].(pollfd := s.watches[k].pollfd.(events := events));
      var t := s.(watches := s.watches[k := v]);
      PollProtocol.WatchUpdate(s, k, events) ==
        if v.idx != -1 then t.(slots := s.slots[v.idx := v.pollfd]) else t.(rebuild := true)
  {
    assert s.watches[k].idx != -1 ==> IsIndexed(s.watches[k]) && Fits(s.watches[k], s.slots);
    WatchUpdateKeepsInv(s, wakeup, k, events);
    hide AllFit, OwnEntries, NewestFirst, Alive, AllAlive, Settled;
  }

  lemma FreeIs(s: Loop, wakeup: int, k: nat)
    requires Inv(s, wakeup) && k < |s.watches| && !s.watches[k].dead
    ensures forall i :: 0 <= i < |s.watches| && i != k ==> s.watches[i].id != s.watches[k].id
    ensures Inv(PollProtocol.WatchFree(s, k), wakeup)
    ensures PollProtocol.WatchFree(s, k) ==
      s.(watches := s.watches[k := s.watches[k].(dead := true)], nWatches := s.nWatches - 1, watchCleanup := true,
         rebuild := s.rebuild || s.watches[k].idx != -1)
  {
    WatchFreeKeepsInv(s, wakeup, k);
    hide AllFit, OwnEntries, NewestFirst, Alive, AllAlive, Settled;
  }

  lemma WatchAdded(w: Watch, ws: seq<Watch>)
    ensures WatchViews([w] + ws) == [WatchView(w, w.dead, w.idx, w.pollfd)] + WatchViews(ws)
  {
  }

  // Handing out entries one by one: the list so far, the array, and the next entry
  ghost predicate Numbering(vs: seq<WatchView>, now: seq<WatchView>, slots: seq<PollFd>, idx: int, i: int) {
    && 0 <= i <= |vs| == |now| && 1 <= idx && idx + Alive(vs[i..]) <= |slots|
    && Numbered(vs, 1) == now[..i] + Numbered(vs[i..], idx)
    && Entries(vs) == slots[1..idx] + Entries(vs[i..])
    && now[i..] == vs[i..]
  }

  // Removing the dead watches one by one: the list so far, and how far it is known alive
  ghost predicate Cleaning(vs: seq<WatchView>, flag: bool, now: seq<WatchView>, nowFlag: bool, i: int) {
    && 0 <= i <= |now|
    && LiveWatches(now) == LiveWatches(vs)
    && AllAlive(now[..i])
    && (nowFlag || HoldsDeadEntry(now) <==> flag || HoldsDeadEntry(vs))
  }

  lemma CleaningStarts(vs: seq<WatchView>, flag: bool)
    ensures Cleaning(vs, flag, vs, flag, 0)
  {
  }

  lemma CleaningStep(vs: seq<WatchView>, flag: bool, now: seq<WatchView>, nowFlag: bool, i: nat)
    requires Cleaning(vs, flag, now, nowFlag, i) && i < |now|
    ensures if now[i].dead then Cleaning(vs, flag, now[..i] + now[i + 1..], nowFlag || now[i].idx != -1, i)
            else Cleaning(vs, flag, now, nowFlag, i + 1)
  {
    if now[i].dead {
      RemoveDead(now, i);
      assert (now[..i] + now[i + 1..])[..i] == now[..i];
    } else {
      assert now[..i + 1] == now[..i] + [now[i]];
    }
  }

  lemma CleaningEnds(vs: seq<WatchView>, flag: bool, now: seq<WatchView>, nowFlag: bool, i: int)
    requires Cleaning(vs, flag, now, nowFlag, i) && i == |now|
    ensures now == LiveWatches(vs) && (nowFlag <==> flag || HoldsDeadEntry(vs))
  {
    assert now[..i] == now;
    LiveOfAlive(now);
  }

  lemma {:induction false} RemoveDead(ws: seq<WatchView>, i: nat)
    requires i < |ws| && ws[i].dead
    ensures LiveWatches(ws[..i] + ws[i + 1..]) == LiveWatches(ws)
    ensures HoldsDeadEntry(ws) <==> ws[i].idx != -1 || HoldsDeadEntry(ws[..i] + ws[i + 1..])
  {
    RemoveDeadLive(ws, i);
    var us := ws[..i] + ws[i + 1..];
    if HoldsDeadEntry(us) {
      var j :| 0 <= j < |us| && us[j].dead && us[j].idx != -1;
      assert us[j] == ws[if j < i then j else j + 1];
    }
    if HoldsDeadEntry(ws) && ws[i].idx == -1 {
      var j :| 0 <= j < |ws| && ws[j].dead && ws[j].idx != -1;
      assert ws[j] == us[if j < i then j else j - 1];
    }
  }

  lemma {:induction false} RemoveDeadLive(ws: seq<WatchView>, i: nat)
    requires i < |ws| && ws[i].dead
    ensures LiveWatches(ws[..i] + ws[i + 1..]) == LiveWatches(ws)
  {
    var us := ws[..i] + ws[i + 1..];
    if i == 0 {
      assert us == ws[1..];
    } else {
      RemoveDeadLive(ws[1..], i - 1);
      assert us[1..] == ws[1..][..i - 1] + ws[1..][i..];
    }
  }

  lemma RemoveView(ws: seq<Watch>, i: nat)
    requires i < |ws|
    ensures WatchViews(ws[..i] + ws[i + 1..]) == WatchViews(ws)[..i] + WatchViews(ws)[i + 1..]
    ensures WatchViews(ws)[i] == WatchView(ws[i], ws[i].dead, ws[i].idx, ws[i].pollfd)
  {
  }

  lemma {:induction false} RemoveDeadTimeout(ts: seq<TimeoutView>, i: nat)
    requires i < |ts| && ts[i].dead
    ensures LiveTimeouts(ts[..i] + ts[i + 1..]) == LiveTimeouts(ts)
  {
    var us := ts[..i] + ts[i + 1..];
    if i == 0 {
      assert us == ts[1..];
    } else {
      RemoveDeadTimeout(ts[1..], i - 1);
      assert us[1..] == ts[1..][..i - 1] + ts[1..][i..];
    }
  }

  lemma RemoveTimeoutView(ts: seq<Timeout>, i: nat)
    requires i < |ts|
    ensures TimeoutViews(ts[..i] + ts[i + 1..]) == TimeoutViews(ts)[..i] + TimeoutViews(ts)[i + 1..]
  {
  }

  lemma RebuildIs(s: Loop, wakeup: int)
    ensures PollProtocol.Rebuild(s, wakeup) ==
      Loop(Numbered(s.watches, 1), s.timeouts, [PollFd(wakeup, POLLIN, 0)] + Entries(s.watches), s.nWatches, false,
           s.watchCleanup, s.timeoutCleanup, s.quit, false, s.preparedTimeout, s.phase)
  {
  }

  lemma StillDistinct(vs: seq<WatchView>, k: nat, idx: int)
    requires DistinctWatches(vs) && k < |vs|
    ensures DistinctWatches(vs[k := vs[k].(idx := idx)])
  {
  }

  lemma NumberingStarts(vs: seq<WatchView>, slots: seq<PollFd>)
    requires |slots| > Alive(vs)
    ensures Numbering(vs, vs, slots, 1, 0)
  {
    assert vs[0..] == vs;
    assert slots[1..1] == [];
  }

  lemma NumberingStep(vs: seq<WatchView>, now: seq<WatchView>, slots: seq<PollFd>, idx: int, i: nat)
    requires Numbering(vs, now, slots, idx, i) && i < |vs|
    ensures now[i] == vs[i]
    ensures vs[i].dead ==> Numbering(vs, now, slots, idx, i + 1)
    ensures !vs[i].dead ==> idx < |slots|
    ensures !vs[i].dead ==>
      Numbering(vs, now[i := now[i].(idx := idx)], slots[idx := vs[i].pollfd], idx + 1, i + 1)
  {
    assert vs[i..][1..] == vs[i + 1..];
    assert now[i] == now[i..][0] == vs[i];
    assert now[i + 1..] == now[i..][1..];
    if vs[i].dead {
      assert now[..i + 1] == now[..i] + [vs[i]];
    } else {
      var v := vs[i].(idx := idx);
      assert now[i := v][..i + 1] == now[..i] + [v];
      assert slots[idx := vs[i].pollfd][1..idx + 1] == slots[1..idx] + [vs[i].pollfd];
    }
  }

  lemma NumberingEnds(vs: seq<WatchView>, now: seq<WatchView>, slots: seq<PollFd>, idx: int, i: nat)
    requires Numbering(vs, now, slots, idx, i) && i == |vs|
    ensures 1 <= idx <= |slots| && now == Numbered(vs, 1) && slots[1..idx] == Entries(vs)
    ensures slots[..idx] == [slots[0]] + Entries(vs)
  {
    assert now[..i] == now;
  }

  lemma OthersAt(vs: seq<TimeoutView>, k: nat)
    requires DistinctTimeouts(vs) && k < |vs|
    ensures forall i :: 0 <= i < |vs| && i != k ==> vs[i].id != vs[k].id
  {
  }
}
