/** The objects of the poll loop and the values they stand for. */
module PollTypes {
  import opened Timevals

  // An entry of the array that is handed to poll
  datatype PollFd = PollFd(fd: int, events: int, revents: int)

  class Watch {
    var dead: bool
    var idx: int
    var pollfd: PollFd

    constructor (fd: int, events: int)
      ensures !dead && idx == -1 && pollfd == PollFd(fd, events, 0)
    {
      dead, idx, pollfd := false, -1, PollFd(fd, events, 0);
    }
  }

  class Timeout {
    var dead: bool
    var enabled: bool
    var expiry: Timeval

    constructor (tv: Expiry)
      ensures !dead && enabled == tv.At? && (tv.At? ==> expiry == tv.time)
    {
      dead, enabled := false, tv.At?;
      if tv.At? {
        expiry := tv.time;
      } else {
        expiry := Timeval(0, 0);
      }
    }
  }

  // The time passed for a timeout, or none to disable it
  datatype Expiry = Never | At(time: Timeval)

  datatype WatchView = WatchView(id: Watch, dead: bool, idx: int, pollfd: PollFd)

  datatype TimeoutView = TimeoutView(id: Timeout, dead: bool, enabled: bool, expiry: Timeval)

  datatype Phase = Init | Preparing | Prepared | Running | Ran | Dispatching | Dispatched | Quit | Failure

  // The state of a loop: its lists, the entries of the array in use, and its flags.
  datatype Loop = Loop(
    watches: seq<WatchView>,
    timeouts: seq<TimeoutView>,
    slots: seq<PollFd>,
    nWatches: int,
    rebuild: bool,
    watchCleanup: bool,
    timeoutCleanup: bool,
    quit: bool,
    eventsValid: bool,
    preparedTimeout: int,
    phase: Phase)

  // The one callback a dispatch makes, if any
  datatype Callback = Nothing | OnWatch(watch: Watch, fd: int, revents: int) | OnTimeout(timeout: Timeout)
}
