/**
 The objects of the announcer: entries, the groups they belong to, the network
 interfaces, and one announcer per (entry, interface).  Only the `var` fields
 change; an announcer's entry and interface and an entry's group and flags are
 fixed when the object is made.
 */
module AnnouncerTypes {

  datatype Phase = Probing | Waiting | Announcing | Established

  datatype GroupState = Uncommitted | Registering | Registered | Collision

  datatype Flags = Flags(unique: bool, noProbe: bool, noAnnounce: bool) {
    predicate Probes() {
      unique && !noProbe
    }
  }

  // A time event: the delay asked for, in milliseconds, and its random share.
  datatype Timer = Off | After(msec: nat, jitter: nat)

  // What an announcer does to the outside world: packets and timer requests.
  datatype Event = Probe | Announce | Arm(msec: nat)

  // The state of one announcer.  `probeLog` and `announceLog` record its events
  // since it last returned to an initial state, one log per phase.
  datatype View = View(phase: Phase, n: nat, secDelay: nat, timer: Timer,
                       probeLog: seq<Event>, announceLog: seq<Event>)

  // The state of one group.  `lost` is the ledger of announcers that were freed
  // while probing without the counter being told.
  datatype GroupView = GroupView(state: GroupState, nProbing: nat, registerTimer: bool, lost: nat)

  class Group {
    var state: GroupState
    var nProbing: nat
    var registerTimer: bool
    var entries: seq<Entry>
    ghost var lost: nat

    constructor ()
      ensures state == Uncommitted && nProbing == 0 && !registerTimer && entries == [] && lost == 0
    {
      state, nProbing, registerTimer, entries, lost := Uncommitted, 0, false, [], 0;
    }

    ghost function Now(): GroupView
      reads `state, `nProbing, `registerTimer, `lost
    {
      GroupView(state, nProbing, registerTimer, lost)
    }
  }

  class Interface {
    const index: nat
    const protocol: nat
    var announcing: bool
    var announcers: seq<Announcer>

    constructor (index: nat, protocol: nat)
      ensures this.index == index && this.protocol == protocol && !announcing && announcers == []
    {
      this.index, this.protocol := index, protocol;
      announcing, announcers := false, [];
    }
  }

  class Entry {
    const flags: Flags
    const group: Group?
    const index: int
    const protocol: int
    var dead: bool
    var announcers: seq<Announcer>

    constructor (flags: Flags, group: Group?, index: int, protocol: int)
      ensures this.flags == flags && this.group == group
      ensures this.index == index && this.protocol == protocol
      ensures !dead && announcers == []
    {
      this.flags, this.group, this.index, this.protocol := flags, group, index, protocol;
      dead, announcers := false, [];
    }

    // Interface -1 and protocol -1 stand for "unspecified".
    predicate Matches(i: Interface) {
      (index == -1 || index == i.index) && (protocol == -1 || protocol == i.protocol)
    }
  }

  class Announcer {
    const entry: Entry
    const iface: Interface
    var phase: Phase
    var n: nat
    var secDelay: nat
    var timer: Timer
    var probeLog: seq<Event>
    var announceLog: seq<Event>

    constructor (entry: Entry, iface: Interface)
      ensures this.entry == entry && this.iface == iface && timer == Off
    {
      this.entry, this.iface := entry, iface;
      phase, n, secDelay, timer, probeLog, announceLog := Established, 0, 0, Off, [], [];
    }

    function Now(): View
      reads this
    {
      View(phase, n, secDelay, timer, probeLog, announceLog)
    }
  }
}
