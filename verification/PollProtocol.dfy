/**
 The poll loop as a state machine over values: what every call does, what every call
 keeps, and what follows for whole runs.
 */
module PollProtocol {
  import opened Timevals
  import opened PollTypes

  const POLLIN: int := 1

  // ---------------------------------------------------------------- counting

  function Alive(ws: seq<WatchView>): (n: nat)
    ensures n <= |ws|
  {
    if ws == [] then 0 else (if ws[0].dead then 0 else 1) + Alive(ws[1..])
  }

  function LiveWatches(ws: seq<WatchView>): seq<WatchView> {
    if ws == [] then []
    else (if ws[0].dead then [] else [ws[0]]) + LiveWatches(ws[1..])
  }

  function LiveTimeouts(ts: seq<TimeoutView>): seq<TimeoutView> {
    if ts == [] then []
    else (if ts[0].dead then [] else [ts[0]]) + LiveTimeouts(ts[1..])
  }

  predicate AllAlive(ws: seq<WatchView>) {
    forall i :: 0 <= i < |ws| ==> !ws[i].dead
  }

  predicate AllTimeoutsAlive(ts: seq<TimeoutView>) {
    forall i :: 0 <= i < |ts| ==> !ts[i].dead
  }

  // ---------------------------------------------------------------- the steps

  function WatchNew(s: Loop, w: Watch, fd: int, events: int): Loop {
    s.(watches := [WatchView(w, false, -1, PollFd(fd, events, 0))] + s.watches, nWatches := s.nWatches + 1, rebuild := true)
  }

  function WatchUpdate(s: Loop, k: nat, events: int): Loop
    requires k < |s.watches|
  {
    var v := s.watches[k].(pollfd := s.watches[k].pollfd.(events := events));
    var t := s.(watches := s.watches[k := v]);
    if 0 <= v.idx < |s.slots| then t.(slots := s.slots[v.idx := v.pollfd]) else t.(rebuild := true)
  }

  function WatchFree(s: Loop, k: nat): Loop
    requires k < |s.watches|
  {
    s.(watches := s.watches[k := s.watches[k].(dead := true)], nWatches := s.nWatches - 1, watchCleanup := true,
       rebuild := s.rebuild || s.watches[k].idx != -1)
  }

  function TimeoutNew(s: Loop, t: TimeoutView): Loop {
    s.(timeouts := [t] + s.timeouts)
  }

  function Reset(v: TimeoutView, tv: Expiry): TimeoutView {
    v.(enabled := tv.At?, expiry := if tv.At? then tv.time else v.expiry)
  }

  function TimeoutUpdate(s: Loop, k: nat, tv: Expiry): Loop
    requires k < |s.timeouts|
  {
    s.(timeouts := s.timeouts[k := Reset(s.timeouts[k], tv)])
  }

  function TimeoutFree(s: Loop, k: nat): Loop
    requires k < |s.timeouts|
  {
    s.(timeouts := s.timeouts[k := s.timeouts[k].(dead := true)], timeoutCleanup := true)
  }

  predicate HoldsDeadEntry(ws: seq<WatchView>) {
    exists i :: 0 <= i < |ws| && ws[i].dead && ws[i].idx != -1
  }

  // Freeing the dead watches clears the flag of the timeouts, not its own.
  function CleanupWatches(s: Loop): Loop {
    s.(watches := LiveWatches(s.watches), timeoutCleanup := false,
       rebuild := s.rebuild || HoldsDeadEntry(s.watches))
  }

  function CleanupTimeouts(s: Loop): Loop {
    s.(timeouts := LiveTimeouts(s.timeouts), timeoutCleanup := false)
  }

  function Cleanup(s: Loop): Loop {
    var t := if s.watchCleanup then CleanupWatches(s) else s;
    if t.timeoutCleanup then CleanupTimeouts(t) else t
  }

  // The live watches get the entries from some number on.
  function Numbered(ws: seq<WatchView>, n: int): seq<WatchView> {
    if ws == [] then []
    else if ws[0].dead then [ws[0]] + Numbered(ws[1..], n)
    else [ws[0].(idx := n)] + Numbered(ws[1..], n + 1)
  }

  function Entries(ws: seq<WatchView>): seq<PollFd> {
    if ws == [] then [] else (if ws[0].dead then [] else [ws[0].pollfd]) + Entries(ws[1..])
  }

  function Rebuild(s: Loop, wakeup: int): Loop {
    s.(watches := Numbered(s.watches, 1), slots := [PollFd(wakeup, POLLIN, 0)] + Entries(s.watches),
       rebuild := false, eventsValid := false)
  }

  // The first of the enabled live timeouts that expire earliest, or -1.
  function Next(ts: seq<TimeoutView>): (n: int)
    ensures -1 <= n < |ts|
    ensures n >= 0 ==> !ts[n].dead && ts[n].enabled
  {
    if ts == [] then -1
    else
      var n := Next(ts[..|ts| - 1]);
      var t := ts[|ts| - 1];
      if t.dead || !t.enabled then n
      else if n < 0 || Compare(t.expiry, ts[n].expiry) < 0 then |ts| - 1
      else n
  }

  // A conversion to 32 bits
  function Int32(x: int): int {
    (x + 0x8000_0000) % 0x1_0000_0000 - 0x8000_0000
  }

  function SleepFor(usec: int): int {
    Int32(Int32(usec / 1000) + 1)
  }

  // How long to poll, in milliseconds, negative for ever.
  function Sleep(ts: seq<TimeoutView>, wait: int, now: Timeval): int {
    var n := Next(ts);
    if n < 0 then wait
    else if ts[n].expiry == Timeval(0, 0) || Diff(ts[n].expiry, now) <= 0 then 0
    else
      var t := SleepFor(Diff(ts[n].expiry, now));
      if wait < 0 || wait > t then t else wait
  }

  function Prepare(s: Loop, wakeup: int, wait: int, now: Timeval): Loop {
    var t := Cleanup(s);
    if t.quit then t.(phase := Quit)
    else
      var u := if t.rebuild then Rebuild(t, wakeup) else t;
      u.(preparedTimeout := Sleep(u.timeouts, wait, now), phase := Prepared)
  }

  function Polled(slots: seq<PollFd>, revents: seq<int>): (ps: seq<PollFd>)
    requires |revents| == |slots|
    ensures |ps| == |slots|
    ensures forall i :: 0 <= i < |slots| ==> ps[i] == slots[i].(revents := revents[i])
  {
    seq(|slots|, i requires 0 <= i < |slots| => slots[i].(revents := revents[i]))
  }

  // Polling fills in what happened.
  function Run(s: Loop, revents: seq<int>): Loop
    requires |revents| == |s.slots|
  {
    s.(slots := Polled(s.slots, revents), eventsValid := true, phase := Ran)
  }

  function RunFails(s: Loop): Loop {
    s.(phase := Failure)
  }

  // What the search for a ready watch comes to: an index that the assertions refuse, a
  // ready watch, or none.
  datatype Search = Refused | Ready(k: nat) | NoneReady

  function FindReady(ws: seq<WatchView>, slots: seq<PollFd>): (r: Search)
    ensures r.Ready? ==> r.k < |ws| && !ws[r.k].dead && 0 <= ws[r.k].idx < |slots| && slots[ws[r.k].idx].revents != 0
  {
    if ws == [] then NoneReady
    else if !ws[0].dead && !(0 <= ws[0].idx < |slots|) then Refused
    else if !ws[0].dead && slots[ws[0].idx].revents != 0 then Ready(0)
    else
      match FindReady(ws[1..], slots)
      case Refused => Refused
      case Ready(k) => Ready(k + 1)
      case NoneReady => NoneReady
  }

  predicate Elapsed(t: TimeoutView, now: Timeval) {
    t.expiry == Timeval(0, 0) || Diff(now, t.expiry) >= 0
  }

  datatype Dispatching = AssertionFails | Calls(loop: Loop, callback: Callback)

  // At most one callback: that of the next timeout if its time has come, else that of the
  // first ready watch.
  function Dispatch(s: Loop, now: Timeval): Dispatching {
    var n := Next(s.timeouts);
    var t := s.(phase := Dispatched);
    if n >= 0 && Elapsed(s.timeouts[n], now) then
      Calls(t.(timeouts := s.timeouts[n := s.timeouts[n].(enabled := false)]), OnTimeout(s.timeouts[n].id))
    else
      match FindReady(s.watches, s.slots)
      case Refused => AssertionFails
      case Ready(k) => Calls(t, OnWatch(s.watches[k].id, s.watches[k].pollfd.fd, s.slots[s.watches[k].idx].revents))
      case NoneReady => Calls(t, Nothing)
  }

  // ---------------------------------------------------------------- invariant

  predicate DistinctWatches(ws: seq<WatchView>) {
    forall i, j :: 0 <= i < j < |ws| ==> ws[i].id != ws[j].id
  }

  predicate DistinctTimeouts(ts: seq<TimeoutView>) {
    forall i, j :: 0 <= i < j < |ts| ==> ts[i].id != ts[j].id
  }

  predicate IsIndexed(w: WatchView) {
    !w.dead && w.idx != -1
  }

  // An entry behind the first, with the descriptor and the events of the watch
  predicate Fits(w: WatchView, slots: seq<PollFd>) {
    1 <= w.idx < |slots| && slots[w.idx].fd == w.pollfd.fd && slots[w.idx].events == w.pollfd.events
  }

  // A live watch that has an entry has its own.
  predicate AllFit(ws: seq<WatchView>, slots: seq<PollFd>) {
    forall i :: 0 <= i < |ws| && IsIndexed(ws[i]) ==> Fits(ws[i], slots)
  }

  predicate OwnEntries(ws: seq<WatchView>) {
    forall i, j :: 0 <= i < j < |ws| && IsIndexed(ws[i]) && IsIndexed(ws[j]) ==> ws[i].idx != ws[j].idx
  }

  // While nothing asks for a rebuild, the watches and the entries behind the first are the
  // same, one for one and in order.
  predicate Settled(s: Loop, wakeup: int) {
    && |s.slots| == |s.watches| + 1
    && s.slots[0].fd == wakeup && s.slots[0].events == POLLIN
    && forall i :: 0 <= i < |s.watches| ==> !s.watches[i].dead && s.watches[i].idx == i + 1
  }

  // Watches without an entry are in front of all others.
  predicate NewestFirst(ws: seq<WatchView>) {
    forall i, j :: 0 <= i < j < |ws| && ws[i].idx != -1 ==> ws[j].idx != -1
  }

  predicate Inv(s: Loop, wakeup: int) {
    && DistinctWatches(s.watches) && DistinctTimeouts(s.timeouts)
    && s.nWatches == Alive(s.watches)
    && AllFit(s.watches, s.slots) && OwnEntries(s.watches)
    && NewestFirst(s.watches)
    && (!s.rebuild ==> Settled(s, wakeup))
    && (!s.watchCleanup ==> AllAlive(s.watches))
    && (!s.watchCleanup && !s.timeoutCleanup ==> AllTimeoutsAlive(s.timeouts))
  }

  // ---------------------------------------------------------------- every step keeps it

  lemma {:induction false} AliveUpdate(ws: seq<WatchView>, k: nat, v: WatchView)
    requires k < |ws|
    ensures Alive(ws[k := v]) == Alive(ws) + (if v.dead then 0 else 1) - (if ws[k].dead then 0 else 1)
  {
    if k == 0 {
      assert ws[k := v][1..] == ws[1..];
    } else {
      AliveUpdate(ws[1..], k - 1, v);
      assert ws[k := v][1..] == ws[1..][k - 1 := v];
    }
  }

  lemma WatchNewKeepsInv(s: Loop, wakeup: int, w: Watch, fd: int, events: int)
    requires Inv(s, wakeup)
    requires forall i :: 0 <= i < |s.watches| ==> s.watches[i].id != w
    ensures Inv(WatchNew(s, w, fd, events), wakeup)
  {
    var t := WatchNew(s, w, fd, events);
    assert t.watches[1..] == s.watches;
    assert forall i :: 0 < i < |t.watches| ==> t.watches[i] == s.watches[i - 1];
  }

  predicate SameShape(ws: seq<WatchView>, us: seq<WatchView>) {
    && |us| == |ws|
    && forall i :: 0 <= i < |ws| ==> us[i].id == ws[i].id && us[i].dead == ws[i].dead && us[i].idx == ws[i].idx
  }

  lemma UpdateShape(s: Loop, k: nat, events: int)
    requires k < |s.watches|
    ensures SameShape(s.watches, WatchUpdate(s, k, events).watches)
    ensures Alive(WatchUpdate(s, k, events).watches) == Alive(s.watches)
  {
    AliveUpdate(s.watches, k, s.watches[k].(pollfd := s.watches[k].pollfd.(events := events)));
  }

  lemma UpdateFits(s: Loop, k: nat, events: int)
    requires AllFit(s.watches, s.slots) && OwnEntries(s.watches) && k < |s.watches| && !s.watches[k].dead
    ensures AllFit(WatchUpdate(s, k, events).watches, WatchUpdate(s, k, events).slots)
    ensures |WatchUpdate(s, k, events).slots| == |s.slots|
    ensures |s.slots| > 0 ==> WatchUpdate(s, k, events).slots[0] == s.slots[0]
    ensures s.watches[k].idx != -1 ==> WatchUpdate(s, k, events).rebuild == s.rebuild
  {
    assert IsIndexed(s.watches[k]) ==> Fits(s.watches[k], s.slots);
    var t := WatchUpdate(s, k, events);
    forall i | 0 <= i < |t.watches| && IsIndexed(t.watches[i]) ensures Fits(t.watches[i], t.slots) {
      assert IsIndexed(s.watches[i]) && Fits(s.watches[i], s.slots);
    }
  }

  lemma WatchUpdateKeepsInv(s: Loop, wakeup: int, k: nat, events: int)
    requires Inv(s, wakeup) && k < |s.watches| && !s.watches[k].dead
    ensures Inv(WatchUpdate(s, k, events), wakeup)
    ensures s.watches[k].idx != -1 ==> WatchUpdate(s, k, events).rebuild == s.rebuild
  {
    var t := WatchUpdate(s, k, events);
    UpdateFits(s, k, events);
    UpdateShape(s, k, events);
    ShapeKeeps(s.watches, t.watches);
    assert t == s.(watches := t.watches, slots := t.slots, rebuild := t.rebuild);
    assert !t.rebuild ==> !s.rebuild;
    hide AllFit, Alive, OwnEntries, NewestFirst, DistinctWatches, AllAlive, DistinctTimeouts, AllTimeoutsAlive, WatchUpdate;
  }

  lemma ShapeKeeps(ws: seq<WatchView>, us: seq<WatchView>)
    requires SameShape(ws, us)
    ensures DistinctWatches(ws) ==> DistinctWatches(us)
    ensures OwnEntries(ws) ==> OwnEntries(us)
    ensures NewestFirst(ws) ==> NewestFirst(us)
    ensures AllAlive(ws) ==> AllAlive(us)
  {
  }

  lemma WatchFreeKeepsInv(s: Loop, wakeup: int, k: nat)
    requires Inv(s, wakeup) && k < |s.watches| && !s.watches[k].dead
    ensures Inv(WatchFree(s, k), wakeup)
  {
    AliveUpdate(s.watches, k, s.watches[k].(dead := true));
  }

  // Where the live watches of a list stood
  function LivePlaces(ws: seq<WatchView>, from: nat): (ps: seq<nat>)
    requires from <= |ws|
    ensures forall i :: 0 <= i < |ps| ==> from <= ps[i] < |ws| && !ws[ps[i]].dead
    ensures forall i, j :: 0 <= i < j < |ps| ==> ps[i] < ps[j]
    decreases |ws| - from
  {
    if from == |ws| then []
    else (if ws[from].dead then [] else [from]) + LivePlaces(ws, from + 1)
  }

  lemma {:induction false} LiveAreAtPlaces(ws: seq<WatchView>, from: nat)
    requires from <= |ws|
    ensures var ls, ps := LiveWatches(ws[from..]), LivePlaces(ws, from);
      |ls| == |ps| == Alive(ws[from..]) && forall i :: 0 <= i < |ls| ==> ls[i] == ws[ps[i]]
    decreases |ws| - from
  {
    if from < |ws| {
      LiveAreAtPlaces(ws, from + 1);
      assert ws[from..][1..] == ws[from + 1..];
    }
  }

  lemma {:induction false} LiveOfAlive(ws: seq<WatchView>)
    requires AllAlive(ws)
    ensures LiveWatches(ws) == ws && Alive(ws) == |ws|
  {
    if ws != [] {
      LiveOfAlive(ws[1..]);
    }
  }

  lemma LivePart(ws: seq<WatchView>, slots: seq<PollFd>)
    ensures var ls := LiveWatches(ws);
      && AllAlive(ls) && |ls| == Alive(ws)
      && (DistinctWatches(ws) ==> DistinctWatches(ls))
      && (AllFit(ws, slots) ==> AllFit(ls, slots))
      && (OwnEntries(ws) ==> OwnEntries(ls))
      && (NewestFirst(ws) ==> NewestFirst(ls))
  {
    assert ws[0..] == ws;
    LiveAreAtPlaces(ws, 0);
    var ps := LivePlaces(ws, 0);
    hide LiveWatches, LivePlaces, Alive;
  }

  lemma CleanupWatchesKeepsInv(s: Loop, wakeup: int)
    requires Inv(s, wakeup)
    ensures var t := CleanupWatches(s);
      Inv(t.(timeoutCleanup := s.timeoutCleanup), wakeup) && AllAlive(t.watches) && t.rebuild == s.rebuild
  {
    var t := CleanupWatches(s);
    LivePart(s.watches, s.slots);
    LiveOfAlive(t.watches);
    if !s.rebuild {
      LiveOfAlive(s.watches);
    }
    hide LiveWatches, Alive, DistinctWatches, AllFit, OwnEntries, NewestFirst;
  }

  lemma {:induction false} LiveTimeoutsPart(ts: seq<TimeoutView>)
    ensures AllTimeoutsAlive(LiveTimeouts(ts))
    ensures forall i :: 0 <= i < |LiveTimeouts(ts)| ==> LiveTimeouts(ts)[i] in ts
    ensures DistinctTimeouts(ts) ==> DistinctTimeouts(LiveTimeouts(ts))
    ensures AllTimeoutsAlive(ts) <==> LiveTimeouts(ts) == ts
  {
    if ts != [] {
      LiveTimeoutsPart(ts[1..]);
      var ls := LiveTimeouts(ts[1..]);
      assert ts == [ts[0]] + ts[1..];
      if DistinctTimeouts(ts) {
        assert DistinctTimeouts(ts[1..]);
        forall i | 0 <= i < |ls| ensures ls[i].id != ts[0].id {
          var j :| 0 <= j < |ts[1..]| && ts[1..][j] == ls[i];
          assert ts[0].id != ts[j + 1].id;
        }
      }
    }
  }

  lemma CleanupKeepsInv(s: Loop, wakeup: int)
    requires Inv(s, wakeup)
    ensures Inv(Cleanup(s), wakeup) && AllAlive(Cleanup(s).watches) && !Cleanup(s).timeoutCleanup
    ensures s.watchCleanup ==> Cleanup(s).timeouts == s.timeouts
    ensures !s.watchCleanup ==> Cleanup(s).watches == s.watches && Cleanup(s).timeouts == LiveTimeouts(s.timeouts)
  {
    CleanupWatchesKeepsInv(s, wakeup);
    LiveTimeoutsPart(s.timeouts);
    hide CleanupWatches, LiveTimeouts, DistinctWatches, AllFit, OwnEntries, NewestFirst, Settled, AllAlive;
  }

  lemma {:induction false} NumberedInOrder(ws: seq<WatchView>, n: nat)
    requires AllAlive(ws)
    ensures |Numbered(ws, n)| == |ws| == |Entries(ws)|
    ensures forall i :: 0 <= i < |ws| ==> Numbered(ws, n)[i] == ws[i].(idx := n + i) && Entries(ws)[i] == ws[i].pollfd
  {
    if ws != [] {
      NumberedInOrder(ws[1..], n + 1);
    }
  }

  // Whatever the indices were, a rebuild settles a loop without dead watches.
  lemma RebuildKeepsInv(s: Loop, wakeup: int)
    requires Inv(s, wakeup) && AllAlive(s.watches)
    ensures Inv(Rebuild(s, wakeup), wakeup) && !Rebuild(s, wakeup).rebuild && AllAlive(Rebuild(s, wakeup).watches)
  {
    var t := Rebuild(s, wakeup);
    NumberedInOrder(s.watches, 1);
    LiveOfAlive(s.watches);
    LiveOfAlive(t.watches);
    hide Numbered, Entries, Alive, LiveWatches;
    assert forall i :: 0 <= i < |t.watches| ==> t.slots[i + 1] == Entries(s.watches)[i] == t.watches[i].pollfd;
  }

  // ---------------------------------------------------------------- preparing

  // Prepared, a loop is settled: its watches are alive and stand one for one in the array.
  lemma PrepareSettles(s: Loop, wakeup: int, wait: int, now: Timeval)
    requires Inv(s, wakeup)
    ensures var t := Prepare(s, wakeup, wait, now);
      && Inv(t, wakeup) && AllAlive(t.watches)
      && (t.phase.Quit? <==> s.quit)
      && (!s.quit ==> t.phase.Prepared? && Settled(t, wakeup))
  {
    CleanupKeepsInv(s, wakeup);
    var c := Cleanup(s);
    assert c.quit == s.quit;
    if c.rebuild {
      RebuildKeepsInv(c, wakeup);
    }
    hide Cleanup, Rebuild, Sleep, DistinctWatches, AllFit, OwnEntries, NewestFirst, Alive;
  }

  // Preparing leaves no dead timeout exactly when no watch was ever freed or none was dead.
  lemma PrepareReclaims(s: Loop, wakeup: int, wait: int, now: Timeval)
    requires Inv(s, wakeup)
    ensures AllTimeoutsAlive(Prepare(s, wakeup, wait, now).timeouts) <==> !s.watchCleanup || AllTimeoutsAlive(s.timeouts)
  {
    CleanupKeepsInv(s, wakeup);
    LiveTimeoutsPart(s.timeouts);
    hide Cleanup, LiveTimeouts, Inv, Sleep, AllTimeoutsAlive;
  }

  // ---------------------------------------------------------------- the next timeout

  // It is the earliest of the enabled live ones, the foremost among equals.
  lemma {:induction false} NextIsEarliest(ts: seq<TimeoutView>)
    ensures Next(ts) < 0 <==> forall i :: 0 <= i < |ts| ==> ts[i].dead || !ts[i].enabled
    ensures Next(ts) >= 0 ==>
      forall i :: 0 <= i < |ts| && !ts[i].dead && ts[i].enabled ==>
        if i < Next(ts) then Compare(ts[Next(ts)].expiry, ts[i].expiry) < 0
        else Compare(ts[Next(ts)].expiry, ts[i].expiry) <= 0
  {
    if ts != [] {
      var front, t, n := ts[..|ts| - 1], ts[|ts| - 1], Next(ts[..|ts| - 1]);
      NextIsEarliest(front);
      if n >= 0 {
        forall i | 0 <= i < |front| && !ts[i].dead && ts[i].enabled
          ensures Compare(t.expiry, ts[n].expiry) < 0 ==> Compare(t.expiry, ts[i].expiry) < 0
        {
          CompareIsTransitive(t.expiry, front[n].expiry, front[i].expiry);
        }
      }
    }
  }

  lemma Int32Range(x: int)
    ensures -0x8000_0000 <= Int32(x) <= 0x7FFF_FFFF
    ensures -0x8000_0000 <= x <= 0x7FFF_FFFF ==> Int32(x) == x
  {
  }

  // The sleep covers the time left and no more than a millisecond beyond it, exactly when
  // the milliseconds and one more fit an int.
  lemma SleepCovers(usec: int)
    requires 0 < usec
    ensures usec < SleepFor(usec) * 1000 <= usec + 1000 <==> usec / 1000 < 0x7FFF_FFFF
  {
    var ms := usec / 1000;
    assert ms * 1000 <= usec < ms * 1000 + 1000;
    Int32Range(ms);
    Int32Range(Int32(ms) + 1);
    hide Int32;
  }

  lemma SleepOverflows()
    ensures SleepFor(0x7FFF_FFFF * 1000) < 0
  {
    assert Int32(0x7FFF_FFFF) == 0x7FFF_FFFF && Int32(0x8000_0000) == -0x8000_0000;
  }

  predicate IsPending(t: TimeoutView) {
    !t.dead && t.enabled
  }

  // Among the pending timeouts of a list none expires earlier.
  predicate IsEarliest(ts: seq<TimeoutView>, t: TimeoutView) {
    t in ts && IsPending(t) && forall u :: u in ts && IsPending(u) ==> Compare(t.expiry, u.expiry) <= 0
  }

  lemma NextIsPending(ts: seq<TimeoutView>)
    ensures Next(ts) >= 0 ==> IsEarliest(ts, ts[Next(ts)])
    ensures Next(ts) < 0 ==> forall u :: u in ts ==> !IsPending(u)
  {
    NextIsEarliest(ts);
    NextIfAny(ts);
    hide Next, Compare;
  }

  lemma {:induction false} NextIfAny(ts: seq<TimeoutView>)
    ensures Next(ts) < 0 ==> forall i :: 0 <= i < |ts| ==> !IsPending(ts[i])
  {
    if ts != [] {
      NextIfAny(ts[..|ts| - 1]);
    }
  }

  predicate InOrder(ts: seq<TimeoutView>, t: TimeoutView, u: TimeoutView) {
    exists k, l :: 0 <= k < l < |ts| && ts[k] == t && ts[l] == u
  }

  // Freeing the dead timeouts keeps all others,
  lemma {:induction false} LiveTimeoutsKept(ts: seq<TimeoutView>)
    ensures forall t :: t in LiveTimeouts(ts) <==> t in ts && !t.dead
  {
    if ts != [] {
      LiveTimeoutsKept(ts[1..]);
      assert ts == [ts[0]] + ts[1..];
      assert LiveTimeouts(ts) == (if ts[0].dead then [] else [ts[0]]) + LiveTimeouts(ts[1..]);
      hide LiveTimeouts;
    }
  }

  lemma LiveTimeoutAhead(ts: seq<TimeoutView>)
    requires ts != []
    ensures LiveTimeouts(ts) == (if ts[0].dead then [] else [ts[0]]) + LiveTimeouts(ts[1..])
    ensures forall i :: 0 <= i < |LiveTimeouts(ts[1..])| ==> LiveTimeouts(ts[1..])[i] in ts[1..]
    ensures ts == [ts[0]] + ts[1..]
  {
    LiveTimeoutsPart(ts[1..]);
  }

  // in their order.
  lemma {:induction false} LiveTimeoutsInOrder(ts: seq<TimeoutView>, i: nat, j: nat)
    requires ts != [] && i < j < |LiveTimeouts(ts)|
    ensures InOrder(ts, LiveTimeouts(ts)[i], LiveTimeouts(ts)[j])
  {
    hide *;
    LiveTimeoutAhead(ts);
    var rest, more := ts[1..], LiveTimeouts(ts[1..]);
    if ts[0].dead {
      NothingLive(rest);
      LiveTimeoutsInOrder(rest, i, j);
      TailInOrder(ts[0], rest, more[i], more[j]);
    } else if i == 0 {
      HeadInOrder(ts[0], rest, more[j - 1]);
    } else {
      NothingLive(rest);
      LiveTimeoutsInOrder(rest, i - 1, j - 1);
      TailInOrder(ts[0], rest, more[i - 1], more[j - 1]);
    }
  }

  lemma NothingLive(ts: seq<TimeoutView>)
    ensures ts == [] ==> LiveTimeouts(ts) == []
  {
  }

  lemma HeadInOrder(t: TimeoutView, ts: seq<TimeoutView>, u: TimeoutView)
    requires u in ts
    ensures InOrder([t] + ts, t, u)
  {
    var l :| 0 <= l < |ts| && ts[l] == u;
    assert ([t] + ts)[0] == t && ([t] + ts)[l + 1] == u;
  }

  lemma TailInOrder(t: TimeoutView, ts: seq<TimeoutView>, u: TimeoutView, v: TimeoutView)
    requires InOrder(ts, u, v)
    ensures InOrder([t] + ts, u, v)
  {
    var k, l :| 0 <= k < l < |ts| && ts[k] == u && ts[l] == v;
    assert ([t] + ts)[k + 1] == u && ([t] + ts)[l + 1] == v;
  }

  // How long the loop sleeps with t as the next timeout, if the milliseconds fit an int:
  // not at all if it is due, and else no longer than until a millisecond behind it, and no
  // longer than a limit that is not negative.
  predicate SleepsUntil(sleep: int, t: TimeoutView, wait: int, now: Timeval) {
    var left := Total(t.expiry) - Total(now);
    && (t.expiry == Timeval(0, 0) || left <= 0 ==> sleep == 0)
    && (t.expiry != Timeval(0, 0) && 0 < left && left / 1000 < 0x7FFF_FFFF ==>
          && 0 <= sleep && sleep * 1000 <= left + 1000
          && (0 <= wait ==> sleep <= wait)
          && (left < sleep * 1000 || sleep == wait))
  }

  lemma SleepIs(ts: seq<TimeoutView>, wait: int, now: Timeval)
    ensures if Next(ts) < 0 then Sleep(ts, wait, now) == wait
            else SleepsUntil(Sleep(ts, wait, now), ts[Next(ts)], wait, now)
  {
    if Next(ts) >= 0 {
      var left := Diff(ts[Next(ts)].expiry, now);
      if left > 0 {
        SleepCovers(left);
      }
      hide Next, SleepFor, Diff;
    }
  }

  // What a preparation stores: without a pending timeout the wait itself, and otherwise the
  // time to the earliest one.
  lemma PrepareSleeps(s: Loop, wakeup: int, wait: int, now: Timeval)
    requires !s.quit
    ensures var sleep := Prepare(s, wakeup, wait, now).preparedTimeout;
      if forall t :: t in s.timeouts ==> !IsPending(t) then sleep == wait
      else exists t :: IsEarliest(s.timeouts, t) && SleepsUntil(sleep, t, wait, now)
  {
    var ts := PreparedTimeouts(s);
    PreparedSleep(s, wakeup, wait, now);
    PreparedPending(s);
    hide *;
    SleepIs(ts, wait, now);
    NextIsPending(ts);
    if Next(ts) >= 0 {
      SameEarliest(s.timeouts, ts, ts[Next(ts)]);
    }
  }

  function PreparedTimeouts(s: Loop): seq<TimeoutView> {
    Cleanup(s).timeouts
  }

  lemma PreparedSleep(s: Loop, wakeup: int, wait: int, now: Timeval)
    requires !s.quit
    ensures Prepare(s, wakeup, wait, now).preparedTimeout == Sleep(PreparedTimeouts(s), wait, now)
  {
    hide Sleep;
  }

  lemma PreparedPending(s: Loop)
    ensures forall t :: t in PreparedTimeouts(s) && IsPending(t) <==> t in s.timeouts && IsPending(t)
  {
    LiveTimeoutsKept(s.timeouts);
    hide LiveTimeouts;
  }

  lemma SameEarliest(ts: seq<TimeoutView>, us: seq<TimeoutView>, t: TimeoutView)
    requires forall t :: t in us && IsPending(t) <==> t in ts && IsPending(t)
    requires IsEarliest(us, t)
    ensures IsEarliest(ts, t)
    ensures !forall t :: t in ts ==> !IsPending(t)
  {
  }

  // So with normalised times the loop never sleeps past a pending timeout by more than a
  // millisecond, nor for ever.
  lemma PrepareWakes(s: Loop, wakeup: int, wait: int, now: Timeval, u: TimeoutView)
    requires !s.quit && u in s.timeouts && IsPending(u)
    requires forall t :: t in s.timeouts && IsPending(t) ==> Normalised(t.expiry)
    requires (Total(u.expiry) - Total(now)) / 1000 < 0x7FFF_FFFF
    ensures var sleep, left := Prepare(s, wakeup, wait, now).preparedTimeout, Total(u.expiry) - Total(now);
      0 <= sleep && (sleep == 0 || sleep * 1000 <= left + 1000)
  {
    PrepareSleeps(s, wakeup, wait, now);
    hide Prepare;
    var t :| IsEarliest(s.timeouts, t) && SleepsUntil(Prepare(s, wakeup, wait, now).preparedTimeout, t, wait, now);
    CompareIsOrder(t.expiry, u.expiry);
    hide Compare;
  }

  // What a live watch can ask for between polls: the events last reported for its entry,
  // until the entries are given out anew.
  function Events(s: Loop, k: nat): int
    requires k < |s.watches|
  {
    var i := s.watches[k].idx;
    if 0 <= i < |s.slots| && s.eventsValid then s.slots[i].revents else 0
  }

  lemma EventsAreReported(s: Loop, wakeup: int, revents: seq<int>, k: nat)
    requires Inv(s, wakeup) && |revents| == |s.slots| && k < |s.watches| && !s.watches[k].dead
    ensures Events(Run(s, revents), k) == if s.watches[k].idx == -1 then 0 else revents[s.watches[k].idx]
    ensures s.watches[k].idx == -1 || 1 <= s.watches[k].idx < |revents|
    ensures forall i :: 0 <= i < |Rebuild(s, wakeup).watches| ==> Events(Rebuild(s, wakeup), i) == 0
  {
    assert s.watches[k].idx != -1 ==> IsIndexed(s.watches[k]) && Fits(s.watches[k], s.slots);
    hide Numbered, Entries, Alive;
  }

  // ---------------------------------------------------------------- dispatching

  // The search refuses exactly if some live watch has no entry: such watches come first.
  lemma {:induction false} RefusedIff(ws: seq<WatchView>, slots: seq<PollFd>)
    requires AllFit(ws, slots) && NewestFirst(ws)
    ensures FindReady(ws, slots).Refused? <==> exists i :: 0 <= i < |ws| && !ws[i].dead && ws[i].idx == -1
  {
    if ws == [] {
    } else {
      assert AllFit(ws[1..], slots) && NewestFirst(ws[1..]);
      RefusedIff(ws[1..], slots);
      assert IsIndexed(ws[0]) ==> Fits(ws[0], slots);
    }
  }

  // A ready watch is the first one alive whose entry has events.
  lemma {:induction false} ReadyIsFirst(ws: seq<WatchView>, slots: seq<PollFd>)
    ensures var r := FindReady(ws, slots);
      !r.Refused? ==> forall i :: 0 <= i < (if r.Ready? then r.k else |ws|) && !ws[i].dead ==>
        0 <= ws[i].idx < |slots| && slots[ws[i].idx].revents == 0
  {
    if ws != [] {
      ReadyIsFirst(ws[1..], slots);
      assert forall i :: 0 < i < |ws| ==> ws[i] == ws[1..][i - 1];
    }
  }

  predicate TimeoutIsDue(s: Loop, now: Timeval) {
    Next(s.timeouts) >= 0 && Elapsed(s.timeouts[Next(s.timeouts)], now)
  }

  // A timeout is due at its time, or at any if that is zero.
  predicate IsDue(t: TimeoutView, now: Timeval) {
    t.expiry == Timeval(0, 0) || Total(t.expiry) <= Total(now)
  }

  // A dispatch goes to a timeout exactly if an earliest pending one is due. With normalised
  // times, after the epoch, that is if any of them is.
  lemma TimeoutIsDueIff(s: Loop, now: Timeval)
    ensures TimeoutIsDue(s, now) <==> exists t :: IsEarliest(s.timeouts, t) && IsDue(t, now)
    ensures (forall t :: t in s.timeouts && IsPending(t) ==> Normalised(t.expiry)) && 0 <= Total(now) ==>
      (TimeoutIsDue(s, now) <==> exists t :: t in s.timeouts && IsPending(t) && IsDue(t, now))
  {
    var ts := s.timeouts;
    NextIsPending(ts);
    if Next(ts) >= 0 {
      var n := ts[Next(ts)];
      assert TimeoutIsDue(s, now) <==> IsDue(n, now);
      hide Next, TimeoutIsDue;
      forall t | IsEarliest(ts, t) ensures IsDue(t, now) <==> IsDue(n, now) {
        assert Compare(t.expiry, n.expiry) <= 0 && Compare(n.expiry, t.expiry) <= 0;
        SameExpiry(t.expiry, n.expiry);
      }
      forall t | t in ts && IsPending(t) && IsDue(t, now) && Normalised(t.expiry) && Normalised(n.expiry) && 0 <= Total(now)
        ensures IsDue(n, now)
      {
        CompareIsOrder(n.expiry, t.expiry);
      }
    }
  }

  lemma SameExpiry(a: Timeval, b: Timeval)
    requires Compare(a, b) <= 0 && Compare(b, a) <= 0
    ensures a == b
  {
  }

  predicate AllIndexed(ws: seq<WatchView>) {
    forall i :: 0 <= i < |ws| && !ws[i].dead ==> ws[i].idx != -1
  }

  // The assertions of a dispatch hold exactly if a timeout goes first or every live watch
  // has its entry.
  lemma DispatchAsserts(s: Loop, wakeup: int, now: Timeval)
    requires Inv(s, wakeup)
    ensures Dispatch(s, now).AssertionFails? <==> !TimeoutIsDue(s, now) && !AllIndexed(s.watches)
  {
    RefusedIff(s.watches, s.slots);
  }

  predicate HasEvents(w: WatchView, slots: seq<PollFd>) {
    !w.dead && 0 <= w.idx < |slots| && slots[w.idx].revents != 0
  }

  // The callback belongs to the first watch that has events.
  predicate CallsWatch(s: Loop, c: Callback, k: nat) {
    && k < |s.watches| && HasEvents(s.watches[k], s.slots) && Fits(s.watches[k], s.slots)
    && c == OnWatch(s.watches[k].id, s.watches[k].pollfd.fd, s.slots[s.watches[k].idx].revents)
    && forall i :: 0 <= i < k ==> !HasEvents(s.watches[i], s.slots)
  }

  // The callback belongs to the next timeout, which is disabled for it.
  predicate CallsTimeout(s: Loop, c: Callback, t: Loop) {
    var n := Next(s.timeouts);
    && n >= 0 && !s.timeouts[n].dead && s.timeouts[n].enabled
    && c == OnTimeout(s.timeouts[n].id)
    && t.timeouts == s.timeouts[n := s.timeouts[n].(enabled := false)]
  }

  // A dispatch keeps the invariant, and what it calls is alive: the next timeout if due, or
  // else the first watch with events.
  lemma DispatchCalls(s: Loop, wakeup: int, now: Timeval)
    requires Inv(s, wakeup) && Dispatch(s, now).Calls?
    ensures var c, t := Dispatch(s, now).callback, Dispatch(s, now).loop;
      && Inv(t, wakeup)
      && if TimeoutIsDue(s, now) then CallsTimeout(s, c, t)
         else t == s.(phase := Dispatched) && match c
           case OnTimeout(_) => false
           case OnWatch(_, _, _) => exists k :: CallsWatch(s, c, k)
           case Nothing => forall i :: 0 <= i < |s.watches| ==> !HasEvents(s.watches[i], s.slots)
  {
    DispatchKeepsInv(s, wakeup, now);
    var c, r := Dispatch(s, now).callback, FindReady(s.watches, s.slots);
    ReadyIsFirst(s.watches, s.slots);
    if r.Ready? && !TimeoutIsDue(s, now) {
      assert IsIndexed(s.watches[r.k]) && Fits(s.watches[r.k], s.slots);
      assert CallsWatch(s, c, r.k);
    }
    hide Inv, FindReady, Next, Elapsed;
  }

  lemma DispatchKeepsInv(s: Loop, wakeup: int, now: Timeval)
    requires Inv(s, wakeup) && Dispatch(s, now).Calls?
    ensures Inv(Dispatch(s, now).loop, wakeup)
  {
    hide AllFit, OwnEntries, NewestFirst, Alive, DistinctWatches, FindReady, AllAlive, Next, Elapsed;
  }

  lemma RunKeepsInv(s: Loop, wakeup: int, revents: seq<int>)
    requires Inv(s, wakeup) && |revents| == |s.slots|
    ensures Inv(Run(s, revents), wakeup)
  {
    var t := Run(s, revents);
    forall i | 0 <= i < |t.watches| && IsIndexed(t.watches[i]) ensures Fits(t.watches[i], t.slots) {
      assert Fits(s.watches[i], s.slots);
    }
    hide OwnEntries, NewestFirst, Alive, DistinctWatches, DistinctTimeouts, AllTimeoutsAlive, AllFit, AllAlive;
  }

  // ---------------------------------------------------------------- runs

  datatype Step =
    | NewWatch(watch: Watch, fd: int, events: int)
    | UpdateWatch(k: nat, events: int)
    | FreeWatch(k: nat)
    | NewTimeout(timeout: Timeout, tv: Expiry)
    | UpdateTimeout(k: nat, tv: Expiry)
    | FreeTimeout(k: nat)
    | RequestQuit
    | DoPrepare(wait: int, now: Timeval)
    | DoRun(revents: seq<int>)
    | FailRun
    | DoDispatch(now: Timeval)

  // What the assertions ask of the caller: live objects, and prepare, run and dispatch in
  // turn.
  predicate CanStep(s: Loop, step: Step) {
    match step
    case NewWatch(w, fd, _) => fd >= 0 && forall i :: 0 <= i < |s.watches| ==> s.watches[i].id != w
    case UpdateWatch(k, _) => k < |s.watches| && !s.watches[k].dead
    case FreeWatch(k) => k < |s.watches| && !s.watches[k].dead
    case NewTimeout(t, _) => forall i :: 0 <= i < |s.timeouts| ==> s.timeouts[i].id != t
    case UpdateTimeout(k, _) => k < |s.timeouts| && !s.timeouts[k].dead
    case FreeTimeout(k) => k < |s.timeouts| && !s.timeouts[k].dead
    case RequestQuit => true
    case DoPrepare(_, _) => s.phase in {Init, Dispatched, Failure}
    case DoRun(revents) => s.phase in {Prepared, Failure} && |revents| == |s.slots|
    case FailRun => s.phase in {Prepared, Failure}
    case DoDispatch(now) => s.phase.Ran? && Dispatch(s, now).Calls?
  }

  function Fresh(t: Timeout, tv: Expiry): TimeoutView {
    TimeoutView(t, false, tv.At?, if tv.At? then tv.time else Timeval(0, 0))
  }

  function Apply(s: Loop, step: Step, wakeup: int): Loop
    requires CanStep(s, step)
  {
    match step
    case NewWatch(w, fd, events) => WatchNew(s, w, fd, events)
    case UpdateWatch(k, events) => WatchUpdate(s, k, events)
    case FreeWatch(k) => WatchFree(s, k)
    case NewTimeout(t, tv) => TimeoutNew(s, Fresh(t, tv))
    case UpdateTimeout(k, tv) => TimeoutUpdate(s, k, tv)
    case FreeTimeout(k) => TimeoutFree(s, k)
    case RequestQuit => s.(quit := true)
    case DoPrepare(wait, now) => Prepare(s, wakeup, wait, now)
    case DoRun(revents) => Run(s, revents)
    case FailRun => RunFails(s)
    case DoDispatch(now) => Dispatch(s, now).loop
  }

  lemma FlagsKeepInv(s: Loop, t: Loop, wakeup: int)
    requires Inv(s, wakeup) && t == s.(quit := t.quit, phase := t.phase)
    ensures Inv(t, wakeup)
  {
  }

  lemma TimeoutNewKeepsInv(s: Loop, wakeup: int, v: TimeoutView)
    requires Inv(s, wakeup) && !v.dead
    requires forall i :: 0 <= i < |s.timeouts| ==> s.timeouts[i].id != v.id
    ensures Inv(TimeoutNew(s, v), wakeup)
  {
    hide AllFit, OwnEntries, NewestFirst, Alive, DistinctWatches, AllAlive;
  }

  lemma TimeoutChangeKeepsInv(s: Loop, wakeup: int, k: nat, v: TimeoutView)
    requires Inv(s, wakeup) && k < |s.timeouts| && v.id == s.timeouts[k].id && (v.dead ==> s.timeouts[k].dead)
    ensures Inv(s.(timeouts := s.timeouts[k := v]), wakeup)
  {
    hide AllFit, OwnEntries, NewestFirst, Alive, DistinctWatches, AllAlive;
  }

  lemma TimeoutFreeKeepsInv(s: Loop, wakeup: int, k: nat)
    requires Inv(s, wakeup) && k < |s.timeouts|
    ensures Inv(TimeoutFree(s, k), wakeup)
  {
    hide AllFit, OwnEntries, NewestFirst, Alive, DistinctWatches, AllAlive;
  }

  // Every step keeps the invariant.
  lemma StepKeepsInv(s: Loop, step: Step, wakeup: int)
    requires Inv(s, wakeup) && CanStep(s, step)
    ensures Inv(Apply(s, step, wakeup), wakeup)
  {
    hide Inv;
    match step
    case NewWatch(w, fd, events) => WatchNewKeepsInv(s, wakeup, w, fd, events);
    case UpdateWatch(k, events) => WatchUpdateKeepsInv(s, wakeup, k, events);
    case FreeWatch(k) => WatchFreeKeepsInv(s, wakeup, k);
    case DoPrepare(wait, now) => PrepareSettles(s, wakeup, wait, now);
    case DoRun(revents) => RunKeepsInv(s, wakeup, revents);
    case DoDispatch(now) => DispatchCalls(s, wakeup, now);
    case NewTimeout(t, tv) => TimeoutNewKeepsInv(s, wakeup, Fresh(t, tv));
    case UpdateTimeout(k, tv) => TimeoutChangeKeepsInv(s, wakeup, k, Reset(s.timeouts[k], tv));
    case FreeTimeout(k) => TimeoutFreeKeepsInv(s, wakeup, k);
    case RequestQuit => FlagsKeepInv(s, s.(quit := true), wakeup);
    case FailRun => FlagsKeepInv(s, RunFails(s), wakeup);
  }

  const NEW_LOOP: Loop := Loop([], [], [], 0, true, false, false, false, false, 0, Init)

  // A sequence of states, each from the one before by a step
  predicate IsRun(run: seq<Loop>, steps: seq<Step>, wakeup: int) {
    && |run| == |steps| + 1 && run[0] == NEW_LOOP
    && forall i :: 0 <= i < |steps| ==> CanStep(run[i], steps[i]) && run[i + 1] == Apply(run[i], steps[i], wakeup)
  }

  lemma NewLoopInv(wakeup: int)
    ensures Inv(NEW_LOOP, wakeup)
  {
  }

  lemma {:induction false} RunInv(run: seq<Loop>, steps: seq<Step>, wakeup: int, i: nat)
    requires IsRun(run, steps, wakeup) && i < |run|
    ensures Inv(run[i], wakeup)
  {
    NewLoopInv(wakeup);
    hide Inv, Apply, CanStep;
    if i > 0 {
      RunInv(run, steps, wakeup, i - 1);
      StepKeepsInv(run[i - 1], steps[i - 1], wakeup);
    }
  }

  // Between preparing and dispatching, only a new watch lacks an entry.
  lemma AllIndexedKept(s: Loop, step: Step, wakeup: int)
    requires CanStep(s, step) && !step.NewWatch? && !step.DoPrepare? && AllIndexed(s.watches)
    ensures AllIndexed(Apply(s, step, wakeup).watches)
  {
    hide Prepare;
    match step {
      case UpdateWatch(_, _) =>
      case FreeWatch(_) =>
      case DoRun(_) =>
      case DoDispatch(_) =>
      case _ =>
    }
  }

  lemma {:induction false} IndexedSincePrepare(run: seq<Loop>, steps: seq<Step>, wakeup: int, i: nat, j: nat)
    requires IsRun(run, steps, wakeup) && i < j < |run|
    requires steps[i].DoPrepare? && !run[i].quit
    requires forall k :: i < k < j ==> !steps[k].NewWatch? && !steps[k].DoPrepare?
    ensures AllIndexed(run[j].watches)
    decreases j
  {
    if j == i + 1 {
      RunInv(run, steps, wakeup, i);
      PrepareSettles(run[i], wakeup, steps[i].wait, steps[i].now);
    } else {
      IndexedSincePrepare(run, steps, wakeup, i, j - 1);
      AllIndexedKept(run[j - 1], steps[j - 1], wakeup);
    }
  }

  // So in every run a dispatch passes its assertions if no watch was created since the
  // preparation; watches and timeouts may have been freed and changed at will.
  lemma CyclesAreSafe(run: seq<Loop>, steps: seq<Step>, wakeup: int, i: nat, j: nat, now: Timeval)
    requires IsRun(run, steps, wakeup) && i < j < |run|
    requires steps[i].DoPrepare? && !run[i].quit
    requires forall k :: i < k < j ==> !steps[k].NewWatch? && !steps[k].DoPrepare?
    ensures Dispatch(run[j], now).Calls?
  {
    RunInv(run, steps, wakeup, j);
    IndexedSincePrepare(run, steps, wakeup, i, j);
    DispatchAsserts(run[j], wakeup, now);
    hide IsRun, Inv;
  }

  // With a watch created in between, the very first cycle fails.
  lemma NewWatchTripsDispatch(w: Watch, wakeup: int, now: Timeval)
    ensures var steps := [DoPrepare(0, now), NewWatch(w, 0, POLLIN), DoRun([0])];
      exists run: seq<Loop> :: IsRun(run, steps, wakeup) && run[3].phase.Ran? && Dispatch(run[3], now).AssertionFails?
  {
    var steps := [DoPrepare(0, now), NewWatch(w, 0, POLLIN), DoRun([0])];
    var s1 := Prepare(NEW_LOOP, wakeup, 0, now);
    var s2 := WatchNew(s1, w, 0, POLLIN);
    assert s1.watches == [] && |s1.slots| == 1;
    var s3 := Run(s2, [0]);
    assert FindReady(s3.watches, s3.slots).Refused?;
    assert s3.phase.Ran? && Dispatch(s3, now).AssertionFails?;
    var run := [NEW_LOOP, s1, s2, s3];
    hide Prepare, WatchNew, Run, FindReady;
    forall i | 0 <= i < 3 ensures CanStep(run[i], steps[i]) && run[i + 1] == Apply(run[i], steps[i], wakeup) {
    }
    assert IsRun(run, steps, wakeup) && run[3] == s3;
  }

  // ---------------------------------------------------------------- timeouts that stay

  // The timeouts of a list are still the last of another, and the dead ones are dead.
  predicate StillListed(ts: seq<TimeoutView>, us: seq<TimeoutView>) {
    && |ts| <= |us|
    && forall i :: 0 <= i < |ts| ==> var u := us[|us| - |ts| + i]; u.id == ts[i].id && (ts[i].dead ==> u.dead)
  }

  lemma SameStillListed(ts: seq<TimeoutView>)
    ensures StillListed(ts, ts)
  {
  }

  lemma ChangedStillListed(ts: seq<TimeoutView>, k: nat, v: TimeoutView)
    requires k < |ts| && v.id == ts[k].id && (ts[k].dead ==> v.dead)
    ensures StillListed(ts, ts[k := v])
  {
  }

  lemma PrependedStillListed(ts: seq<TimeoutView>, v: TimeoutView)
    ensures StillListed(ts, [v] + ts)
  {
  }

  lemma StillListedTransitive(ts: seq<TimeoutView>, us: seq<TimeoutView>, vs: seq<TimeoutView>)
    requires StillListed(ts, us) && StillListed(us, vs)
    ensures StillListed(ts, vs)
  {
    forall i | 0 <= i < |ts|
      ensures var v := vs[|vs| - |ts| + i]; v.id == ts[i].id && (ts[i].dead ==> v.dead)
    {
      var j := |us| - |ts| + i;
      assert us[j].id == ts[i].id;
      assert vs[|vs| - |us| + j].id == us[j].id;
    }
  }

  lemma StepKeepsTimeouts(s: Loop, step: Step, wakeup: int)
    requires CanStep(s, step) && s.watchCleanup
    ensures Apply(s, step, wakeup).watchCleanup && StillListed(s.timeouts, Apply(s, step, wakeup).timeouts)
  {
    hide Dispatch, Prepare, StillListed;
    match step
    case UpdateTimeout(k, tv) => ChangedStillListed(s.timeouts, k, Reset(s.timeouts[k], tv));
    case FreeTimeout(k) => ChangedStillListed(s.timeouts, k, s.timeouts[k].(dead := true));
    case NewTimeout(t, tv) => PrependedStillListed(s.timeouts, Fresh(t, tv));
    case DoDispatch(now) => DispatchKeepsTimeouts(s, now);
    case _ =>
      OtherStepsKeepTimeouts(s, step, wakeup);
      SameStillListed(s.timeouts);
  }

  lemma OtherStepsKeepTimeouts(s: Loop, step: Step, wakeup: int)
    requires CanStep(s, step) && s.watchCleanup
    requires !step.NewTimeout? && !step.UpdateTimeout? && !step.FreeTimeout? && !step.DoDispatch?
    ensures Apply(s, step, wakeup).watchCleanup && Apply(s, step, wakeup).timeouts == s.timeouts
  {
    hide Dispatch, LiveWatches, Sleep, Numbered, Entries;
  }

  lemma DispatchKeepsTimeouts(s: Loop, now: Timeval)
    requires Dispatch(s, now).Calls?
    ensures Dispatch(s, now).loop.watchCleanup == s.watchCleanup && StillListed(s.timeouts, Dispatch(s, now).loop.timeouts)
  {
    SameStillListed(s.timeouts);
    var n := Next(s.timeouts);
    if n >= 0 {
      ChangedStillListed(s.timeouts, n, s.timeouts[n].(enabled := false));
    }
    hide StillListed, Next, Elapsed, FindReady;
  }

  // Once any watch has been freed, no timeout leaves the list again.
  lemma {:induction false} DeadTimeoutsStay(run: seq<Loop>, steps: seq<Step>, wakeup: int, i: nat, j: nat)
    requires IsRun(run, steps, wakeup) && i <= j < |run| && run[i].watchCleanup
    ensures run[j].watchCleanup && StillListed(run[i].timeouts, run[j].timeouts)
    decreases j
  {
    hide StillListed, Apply, CanStep;
    if i == j {
      SameStillListed(run[i].timeouts);
    } else {
      DeadTimeoutsStay(run, steps, wakeup, i, j - 1);
      assert run[j - 1 + 1] == Apply(run[j - 1], steps[j - 1], wakeup);
      StepKeepsTimeouts(run[j - 1], steps[j - 1], wakeup);
      StillListedTransitive(run[i].timeouts, run[j - 1].timeouts, run[j].timeouts);
    }
  }

  // One watch and one timeout, both created and freed, and the timeout is there to stay.
  lemma FreedTimeoutStays(w: Watch, t: Timeout, wakeup: int, now: Timeval)
    ensures var steps := [NewWatch(w, 0, POLLIN), FreeWatch(0), NewTimeout(t, Never), FreeTimeout(0), DoPrepare(0, now)];
      exists run: seq<Loop> ::
        IsRun(run, steps, wakeup) && run[5].phase.Prepared? && run[5].timeouts == [Fresh(t, Never).(dead := true)]
  {
    var steps := [NewWatch(w, 0, POLLIN), FreeWatch(0), NewTimeout(t, Never), FreeTimeout(0), DoPrepare(0, now)];
    var s1 := WatchNew(NEW_LOOP, w, 0, POLLIN);
    var s2 := WatchFree(s1, 0);
    var s3 := TimeoutNew(s2, Fresh(t, Never));
    var s4 := TimeoutFree(s3, 0);
    var s5 := Prepare(s4, wakeup, 0, now);
    assert s4.timeouts == [Fresh(t, Never).(dead := true)];
    assert s5.timeouts == s4.timeouts && s5.phase.Prepared?;
    assert CanStep(s1, FreeWatch(0)) && CanStep(s3, FreeTimeout(0)) && s4.phase == Init;
    var run := [NEW_LOOP, s1, s2, s3, s4, s5];
    hide Prepare, WatchNew, WatchFree, TimeoutNew, TimeoutFree;
    forall i | 0 <= i < 5 ensures CanStep(run[i], steps[i]) && run[i + 1] == Apply(run[i], steps[i], wakeup) {
    }
    assert IsRun(run, steps, wakeup) && run[5] == s5;
  }
}
