# Discovery, demosaicing and statistics, verified

Verified models of five parts of the observatory software: its mDNS stack, its
demosaicing library, its guide log analysis, its star statistics and its service browser.
Sequential code that updates objects and buffers is modelled by methods on classes and
arrays. Each such method is proved against a function of the values before the call, and
the properties are proved of those functions, for all inputs and all runs.

| files | models |
|---|---|
| `AnnouncerTypes`, `AnnouncerProtocol` | the announcers of the mDNS responder as a state machine: probing, the barrier of a group, announcing; invariants, a measure, progress |
| `AnnouncerLinks`, `AnnouncerServer` | the same with its objects, linked lists and mutual recursion: every call from outside takes an enabled step, so the calls made so far are a run, and the theorems on runs hold of the objects |
| `BayerPattern`, `BayerWalk` | filter tiles, the flat buffer, borders, and walking it row by row with two toggles |
| `BayerBilinear`, `BayerHQLinear` | the two interpolations against per-pixel specifications |
| `CStrings`, `Utf8` | NUL-terminated strings and UTF-8 validation |
| `DomainLabels`, `DomainNames`, `DomainEquality`, `ServiceNames` | escaping, normalising, comparing, hashing, joining and splitting DNS-SD names |
| `AlternativeNames` | renaming after a collision |
| `TxtRecords` | TXT string lists: reversal in place, serialising, parsing |
| `Timevals`, `PollTypes`, `PollProtocol`, `PollLoop` | the poll loop: values first, then the object |
| `LinearFits`, `GuideLogs` | the one-pass line fit, and the series built on it |
| `StarZones` | running star statistics per zone |
| `ServiceBrowser` | resolvers, services and signals of a browser |

`dafny verify dfyconfig.toml` checks everything.

## Findings

Some of what the code or its comments suggest does not hold. Of the members named, one
gives an input that shows it and another says exactly when it does hold.

- `remove_announcer` leaves `n_probing` alone, so a group that loses an announcer while it
  probes registers until it is reset or withdrawn (`LostProbeBlocksGroup`, `ProgressIff`,
  `StuckForGood`).
- `avahi_normalize_name` ignores a failure of escaping and can return a name that lost
  bytes (`NormalizeLosesBytes`, `NormalizeIsExact`). A dot in the last byte of its buffer
  trips an assertion (`NormalizeTripsAssertion`, `NormalizeStops`).
- `avahi_service_name_split` trips that assertion, too, where it means to report that the
  buffer is full (`SplitTripsAssertion`; `ServiceNameSplit` and `OverflowsAt` say when).
- Joining can read a text without terminator, when the last label of a type or domain does
  not fit the inner buffer (`JoinOverruns`, `JoinEnds`).
- Renaming trips an assertion on names that are no UTF-8, which the validity check lets
  through (`RenamingTripsAssertion`, `AlternativeStops`).
- A joined name is split into its parts only if it is UTF-8, which the validity check of
  service names does not ask for (`OtherBytesAreNotSplit`, `SplitOfJoin`).
- `cleanup_watches` clears the flag of the timeouts instead of its own, so once a watch
  has been freed dead timeouts stay in the list (`FreedTimeoutStays`, `PrepareReclaims`,
  `DeadTimeoutsStay`).
- The dispatch assertions fail if a watch is created between preparing and dispatching
  (`NewWatchTripsDispatch`, `DispatchAsserts`), and a sleep of 24 days and more overflows
  an int (`SleepOverflows`, `SleepCovers`).
- `avahi_timeval_add` leaves a million microseconds when the sum is a negative multiple of
  a second (`PlusLeavesAMillion`, `PlusConserves`).
- The right ascension drift subtracts the last guide move too, which its comment does not
  say (`StillStarDrifts`, `RaDriftIsRebuilt`).
- Two services can share the key of the browser's maps (`KeysCollide`, `KeyIsShared`).

## Model

| member | source | states |
|---|---|---|
| `AnnouncerProtocol.NextKeepsInv` | QtZeroConf/avahi-core/announce.c:71-260 | every step allowed to the server or its callers, from a state with the invariant, passes the assertion, drives no counter below zero and keeps the invariant |
| `AnnouncerProtocol.RunsAreSafe` | QtZeroConf/avahi-core/announce.c:111-176 | in every run from the empty server each step is safe: no assertion fails and none of the three decrements of `n_probing` underflows |
| `AnnouncerProtocol.RunLedger` | QtZeroConf/avahi-core/announce.c:37-48 | in every reachable state `n_probing` is the number of live probing announcers of the group plus those freed while probing; it is positive while the group registers |
| `AnnouncerProtocol.RunBarrier` | QtZeroConf/avahi-core/announce.c:71-109 | in every reachable state: while a group registers none of its announcers announces or has announced; once it is registered none waits |
| `AnnouncerProtocol.RunAnnouncers` | QtZeroConf/avahi-core/announce.c:198-260 | in every reachable state a timer is armed exactly in probing and announcing, probing implies unique and not no-probe, and (entry, interface) has at most one announcer |
| `AnnouncerProtocol.BarrierOpensLast` | QtZeroConf/avahi-core/announce.c:71-109 | a step that opens the barrier of a group leaves no live announcer of it probing and none lost |
| `AnnouncerProtocol.RunTraffic` | QtZeroConf/avahi-core/announce.c:122-175 | sections 8.1 and 8.3 of RFC 6762 in every reachable state: past probing exactly three probes 250 ms apart (or none), established after three announcements at doubling delays (or none), or after four, which only records do that need no probing |
| `AnnouncerProtocol.RunProbes` | QtZeroConf/avahi-core/announce.c:111-151 | in every run: a unique record that was not there, or probing, gets past probing with all three probes sent, unless it is announced anew afterwards |
| `AnnouncerProtocol.RunAnnounces` | QtZeroConf/avahi-core/announce.c:111-229 | in every reachable state: an established record that has not been announced is one not to be announced; one not to be announced is heard only after its probes; and only a unique record without no-probe is ever probed |
| `AnnouncerProtocol.RunTimers` | QtZeroConf/avahi-core/announce.c:52-69 | in every reachable state the timer that is set is the one last asked for, with jitter but between probes |
| `AnnouncerProtocol.NextStartsAnew` | QtZeroConf/avahi-core/announce.c:198-229 | an announcer that joins, is announced anew or restarts after a conflict has sent nothing |
| `AnnouncerProtocol.RunFourAnnouncements` | QtZeroConf/avahi-core/announce.c:71-109 | in every run: a record released by the commit of its group is announced four times, not three, before it is established |
| `AnnouncerProtocol.FireLowersRanks` | QtZeroConf/avahi-core/announce.c:111-176 | a timer step lowers the rank of its announcer and raises that of no other, so the sum of ranks drops |
| `AnnouncerProtocol.TimerRunsEnd` | QtZeroConf/avahi-core/announce.c:111-176 | no run of timer steps alone is longer than the measure of its start |
| `AnnouncerProtocol.NextMeasure` | QtZeroConf/avahi-core/announce.c:71-260 | a timer step takes one from the measure, any other adds at most nine for each announcer it starts anew |
| `AnnouncerProtocol.RunsFallSilent` | QtZeroConf/avahi-core/announce.c:71-260 | in every run the timers fire at most nine times for each announcer that was started, beyond the measure of the start: without new starts everything falls silent |
| `AnnouncerProtocol.TimerRunsFinish` | QtZeroConf/avahi-core/announce.c:111-176 | every state can be brought to rest by timer steps |
| `AnnouncerProtocol.SomeTimerIsArmed` | QtZeroConf/avahi-core/announce.c:71-176 | a registering group that lost no probe has an announcer with an armed timer |
| `AnnouncerProtocol.ProgressIff` | QtZeroConf/avahi-core/announce.c:71-176 | left to its timers until they are spent, a registering group ends registered, all its announcers established, exactly if no announcer of it was freed while probing |
| `AnnouncerProtocol.LostProbeBlocksGroup` | QtZeroConf/avahi-core/announce.c:37-48 | a run of three steps after which a group registers with no announcer left, because one was freed while probing |
| `AnnouncerProtocol.StuckForGood` | QtZeroConf/avahi-core/announce.c:71-176 | in every run: a group that registers and has lost a probe goes on registering until it is reset or withdrawn |
| `AnnouncerServer.Server.NextState` | QtZeroConf/avahi-core/announce.c:111-176 | does to the objects what one timer step does to the state |
| `AnnouncerServer.Server.CheckProbed` | QtZeroConf/avahi-core/announce.c:71-109 | the mutually recursive check of a group, against the state function that releases all waiting announcers at once |
| `AnnouncerServer.Server.TimerElapsed` | QtZeroConf/avahi-core/announce.c:178-182 | the time event of an armed announcer can always fire, and is one timer step, added to the run of calls |
| `AnnouncerServer.Server.GoToInitialState` | QtZeroConf/avahi-core/announce.c:198-229 | the starting phase by flags and group, the counter with it, and the first timer |
| `AnnouncerServer.Server.NewAnnouncer` | QtZeroConf/avahi-core/announce.c:231-260 | adds at most one announcer, only where there is none, on both lists |
| `AnnouncerServer.Server.RemoveAnnouncer` | QtZeroConf/avahi-core/announce.c:37-48 | takes an announcer off both lists; a probing one is entered as lost, the counter stays |
| `AnnouncerServer.Server.AnnounceInterface` | QtZeroConf/avahi-core/announce.c:262-274 | exactly the missing announcers of an announcing interface join |
| `AnnouncerServer.Server.AnnounceEntry` | QtZeroConf/avahi-core/announce.c:287-293 | a committed entry has an announcer on every announcing interface it matches |
| `AnnouncerServer.Server.AnnounceGroup` | QtZeroConf/avahi-core/announce.c:295-304 | only announcers of the group join, and only if it is committed; then every live entry has one on every announcing interface it matches |
| `AnnouncerServer.Server.ReturnToInitialState` | QtZeroConf/avahi-core/announce.c:339-353 | restarts the announcer of the pair, if there is one, with the counter adjusted first |
| `AnnouncerServer.Server.Reannounce` | QtZeroConf/avahi-core/announce.c:417-468 | the phase after a reannouncement, and the counter if it probes again |
| `AnnouncerServer.Server.ReannounceEntry` | QtZeroConf/avahi-core/announce.c:485-492 | the same for every announcer of an entry |
| `AnnouncerServer.Server.GoodbyeInterface` | QtZeroConf/avahi-core/announce.c:494-510 | removes exactly the announcers of an interface |
| `AnnouncerServer.Server.GoodbyeEntry` | QtZeroConf/avahi-core/announce.c:512-524 | removes exactly the announcers of an entry |
| `AnnouncerServer.Server.CommitReal` | QtZeroConf/avahi-core/entry.c:1114-1126 | registering, announcing and the first check as one commit of the state; every live entry has its announcers |
| `AnnouncerServer.Server.CommitGroup` | QtZeroConf/avahi-core/entry.c:1139-1174 | refuses a committed or empty group; otherwise takes the step of the commit, with announcers for every live entry, or that of holding off, no register timer being set before |
| `AnnouncerServer.Server.HoldoffElapsed` | QtZeroConf/avahi-core/entry.c:1128-1137 | the held-off commit, made when its timer elapses |
| `AnnouncerServer.Server.ResetGroup` | QtZeroConf/avahi-core/entry.c:1176-1193 | takes the step that drops every announcer of the group and zeroes its counter; leaves its entries dead, and no others |
| `AnnouncerServer.Server.WithdrawEntry` | QtZeroConf/avahi-core/server.c:154-182 | a lost conflict takes down the group and its entries, or an entry of its own |
| `AnnouncerServer.Server.AddEntry` | QtZeroConf/avahi-core/entry.c:220-313 | a new record, refused by a committed group; the step joins its announcers, all of them at once without a group, and none with one |
| `AnnouncerServer.Server.InterfaceUp` | QtZeroConf/avahi-core/iface.c:432-470 | the step joins announcers of due entries on the interface only, and every due entry has one afterwards |
| `AnnouncerServer.Server.InterfaceDown` | QtZeroConf/avahi-core/iface.c:432-470 | the interface keeps no announcer; the step is that they leave |
| `AnnouncerServer.Server.NewInterface` | QtZeroConf/avahi-core/iface.c:326-359 | a new interface joins the list and announces nothing yet |
| `AnnouncerServer.Server.FreeInterface` | QtZeroConf/avahi-core/iface.c:275-306 | its announcers are gone, as is asserted, before an interface leaves the list |
| `AnnouncerServer.Server.CallsKeepLedger` | QtZeroConf/avahi-core/announce.c:37-48 | after any calls from outside: `n_probing` of a group is the number of its probing announcers and of those lost |
| `AnnouncerServer.Server.CallsKeepBarrier` | QtZeroConf/avahi-core/announce.c:71-109 | after any calls: nobody is heard while its group registers, nor held back once it is registered |
| `AnnouncerServer.Server.CallsKeepStuck` | QtZeroConf/avahi-core/announce.c:37-48 | a group that lost a probe while registering is registering still unless a call has reset or withdrawn it since |
| `BayerPattern.ClearBorders` | libs/bayer.c:42-66 | zeroes exactly the pixels of a border of any width |
| `BayerPattern.TileIsRepeated` | libs/bayer.c:199-230 | the colour of a pixel is the letter of the tile at its place in it |
| `BayerPattern.TogglesFlip` | libs/bayer.c:199-299 | flipping both toggles at the end of a row keeps them in step with the tile |
| `BayerPattern.RowAlternates` | libs/bayer.c:199-299 | within a row the toggles say which colour the filter has at each column |
| `BayerBilinear.Bilinear` | libs/bayer.c:199-299 | for all tiles and sizes from 3 by 3: the output is the per-pixel specification, zero on the border, inside the raw sample or the rounded mean of the neighbours of that colour; nothing behind the image is written |
| `BayerBilinear.AtGreen` | libs/bayer.c:199-299 | at a green site red and blue are the rounded means of the horizontal and the vertical pair, as the tile has them |
| `BayerBilinear.AtColour` | libs/bayer.c:199-299 | at a red or blue site green is the rounded mean of the four edge neighbours and the opposite colour that of the four corners |
| `BayerBilinear.BilinearBounded` | libs/bayer.c:199-299 | no interpolated value leaves the range of the samples |
| `BayerBilinear.PlaneIsKept` | libs/bayer.c:199-299 | an image that is a plane is reproduced exactly inside |
| `BayerHQLinear.HQLinear` | libs/bayer.c:304-446 | for all tiles and sizes from 5 by 5: every value is the rounded kernel sum over a 5 by 5 window, clipped to 8 bits, the own colour raw and the 2-pixel border zero; nothing behind the image is written |
| `BayerHQLinear.HQLinear16` | libs/bayer.c:1113-1268 | the same in 16-bit samples, clipped to the given number of bits; more than 16 of them overrun the sample |
| `BayerHQLinear.AtGreen` | libs/bayer.c:304-446 | at a green site red and blue in samples, by the shifts and sums of the code, which are the two kernels, rounded |
| `BayerHQLinear.AtColour` | libs/bayer.c:304-446 | the same at a red or blue site |
| `BayerHQLinear.RoundedIsNear` | libs/bayer.c:304-446 | a decoded sample is the weighted sum, divided by sixteen and rounded |
| `BayerHQLinear.TwoToSum` | libs/bayer.c:37-40 | the limit is a power of two |
| `BayerHQLinear.PlaneIsKept` | libs/bayer.c:304-446 | a plane, so also a constant image, within the range is reproduced exactly inside |
| `BayerHQLinear.HQBounded` | libs/bayer.c:304-446 | no value leaves the range |
| `Utf8.Utf8Valid` | QtZeroConf/avahi-common/utf8.c:49-110 | accepts exactly the concatenations of encodings of section 4 of RFC 3629, less NUL and the noncharacters named; never reads past the terminator |
| `Utf8.ValidIsUtf8` | QtZeroConf/avahi-common/utf8.c:49-110 | the recogniser of characters one by one accepts exactly those strings |
| `Utf8.FirstIsEncoded` | QtZeroConf/avahi-common/utf8.c:57-104 | a string starts with the encoding of a code point exactly if that is what is read there |
| `Utf8.UnicodeValid` | QtZeroConf/avahi-common/utf8.c:33-37 | the macro of code points accepts exactly those the specification allows |
| `Utf8.ValidConcat` | QtZeroConf/avahi-common/utf8.c:49-110 | validity of a concatenation is that of its parts |
| `Utf8.EncodingsAre` | QtZeroConf/avahi-common/utf8.c:57-104 | the encoded characters are those of the byte table of section 4 of RFC 3629, less NUL and the noncharacters |
| `DomainLabels.UnescapeLabel` | QtZeroConf/avahi-common/domain.c:40-113 | gives a label exactly if the text is well formed, fits the buffer and is UTF-8; then the buffer holds it and the position is behind the text and its dot |
| `DomainLabels.ReadIsSpelled` | QtZeroConf/avahi-common/domain.c:52-101 | a label is read exactly where a text starts with spellings of its bytes that a dot or the end follows: the byte itself, a dot or backslash behind a backslash, or three digits behind one |
| `DomainLabels.UnescapeIsSpelled` | QtZeroConf/avahi-common/domain.c:40-113 | and accepted exactly if it fits the buffer and is UTF-8 |
| `DomainLabels.PlainIsRead` | QtZeroConf/avahi-common/domain.c:98-113 | so any UTF-8 without dots and backslashes is read as it stands |
| `DomainLabels.EscapeIsSpelling` | QtZeroConf/avahi-common/domain.c:129-166 | what is written for a byte is a spelling of it, of one, two or four bytes by its kind |
| `DomainLabels.EscapeLabel` | QtZeroConf/avahi-common/domain.c:115-176 | fits exactly if the escaped form is shorter than the room; otherwise leaves the whole escapes that fit, without a terminator |
| `DomainLabels.Escape` | QtZeroConf/avahi-common/domain.c:115-176 | n bytes take at least n and at most 4n bytes in escaped form |
| `DomainLabels.ReadOfEscape` | QtZeroConf/avahi-common/domain.c:41-176 | reading an escaped label followed by a dot or the end gives it back and consumes exactly that |
| `DomainLabels.UnescapeOfEscape` | QtZeroConf/avahi-common/domain.c:41-176 | the same for a UTF-8 label that fits the buffer |
| `DomainNames.NormalizeName` | QtZeroConf/avahi-common/domain.c:178-217 | the outcome and the buffer are those of the specification, which follows every label, dot and shortage |
| `DomainNames.NormalKeepsLabels` | QtZeroConf/avahi-common/domain.c:178-217 | the normal form of labels is read as those labels |
| `DomainNames.NormalizeIsExact` | QtZeroConf/avahi-common/domain.c:178-217 | gives the normal form exactly if that is shorter than the buffer; a text that is no name gives no result |
| `DomainNames.NormalizeStops` | QtZeroConf/avahi-common/domain.c:202-213 | the assertion of escaping fails exactly if the labels, each written as far as it fits, come to a point where one byte is left and another label follows |
| `DomainNames.FullBufferStops` | QtZeroConf/avahi-common/domain.c:202-213 | so it fails whenever labels that fit fill all but one byte and another follows |
| `DomainNames.NormalizeTripsAssertion` | QtZeroConf/avahi-common/domain.c:202-213 | "a.b" in two bytes does |
| `DomainNames.NormalizeEnds` | QtZeroConf/avahi-common/domain.c:178-217 | how long the text gets, and that it is terminated exactly if it is empty or its last label fitted |
| `DomainNames.NormalizeIsIdempotent` | QtZeroConf/avahi-common/domain.c:178-217 | given room, normalising twice is normalising once and the labels stay |
| `DomainNames.NormalizeLosesBytes` | QtZeroConf/avahi-common/domain.c:213 | a name whose normal form does not fit and that is returned as the root: the failure of escaping is ignored |
| `DomainEquality.DomainEqual` | QtZeroConf/avahi-common/domain.c:229-252 | terminates; the first label that differs but for case, or cannot be read, decides between inequality and a failed assertion, and what lies behind it does not matter; on names it is equality of their labels, letter by letter but for A to Z and a to z |
| `DomainEquality.FoldsAlike` | QtZeroConf/avahi-common/domain.c:244 | two labels are alike exactly if their bytes are, or are one letter in its two cases |
| `DomainEquality.ComparedByLabels` | QtZeroConf/avahi-common/domain.c:229-252 | texts that can be read are compared label by label, going on with empty ones |
| `DomainEquality.SameNames` | QtZeroConf/avahi-common/domain.c:229-252 | on names the comparison that goes on with empty labels is equality of label sequences |
| `DomainEquality.DomainHash` | QtZeroConf/avahi-common/domain.c:424-438 | the lower-cased bytes of all labels, as signed chars, as the digits of a number to the base 31, in 32 bits |
| `DomainEquality.HashIsWeighed` | QtZeroConf/avahi-common/domain.c:424-438 | folding label by label is that number |
| `DomainEquality.EqualNamesHashAlike` | QtZeroConf/avahi-common/domain.c:424-438 | equal names have equal hashes |
| `DomainEquality.ValidServiceType` | QtZeroConf/avahi-common/domain.c:254-272 | holds exactly of a short text of at least one label, each an underscore and two bytes or more |
| `DomainEquality.ValidDomainName` | QtZeroConf/avahi-common/domain.c:369-394 | holds exactly of a short text that reads as non-empty labels, the root included |
| `ServiceNames.ServiceNameJoin` | QtZeroConf/avahi-common/domain.c:440-478 | the error codes, and the joined text cut to the buffer |
| `ServiceNames.JoinIsExact` | QtZeroConf/avahi-common/domain.c:440-478 | valid parts give the joined normal forms exactly if both normal forms fit the inner buffers |
| `ServiceNames.JoinRefuses` | QtZeroConf/avahi-common/domain.c:448-471 | the first part that is not valid decides which error is reported |
| `ServiceNames.JoinEnds` | QtZeroConf/avahi-common/domain.c:440-478 | valid parts end in the assertion, in reading a text without terminator, or in a text; which one is decided by their labels |
| `ServiceNames.JoinOverruns` | QtZeroConf/avahi-common/domain.c:440-478 | five labels of 63 spaces as the domain leave a text without terminator that is read |
| `ServiceNames.ServiceNameSplit` | QtZeroConf/avahi-common/domain.c:496-573 | one of four outcomes, each told exactly: the types read so far do not fit, or the domain does not, which either is reported or trips an assertion, a label cannot be read, or the buffers hold name, type and domain |
| `ServiceNames.SplitOfJoin` | QtZeroConf/avahi-common/domain.c:440-573 | splitting what was joined gives name, type and domain back exactly if the name is UTF-8 and the first label of the domain does not start with an underscore (section 4 of RFC 6763) |
| `ServiceNames.OtherBytesAreNotSplit` | QtZeroConf/avahi-common/domain.c:396-403 | a name that passes the check, is joined if both normal forms fit, and never split again |
| `ServiceNames.SplitInvertsJoin` | QtZeroConf/avahi-common/domain.c:440-573 | so with room in the inner buffers joining gives a text and splitting it gives the parts |
| `ServiceNames.SplitOfJoinUnnamed` | QtZeroConf/avahi-common/domain.c:440-573 | the same without a name |
| `ServiceNames.OverflowsAt` | QtZeroConf/avahi-common/domain.c:535-563 | the label at which a buffer ends decides between the error and the assertion |
| `ServiceNames.SplitTripsAssertion` | QtZeroConf/avahi-common/domain.c:535-542 | "_a._b" into three bytes for the type trips it |
| `ServiceNames.RawOfNormal` | QtZeroConf/avahi-common/domain.c:496-522 | joined labels are read back, with or without a dot at the end |
| `AlternativeNames.AlternativeServiceName` | QtZeroConf/avahi-common/alternative.c:117-182 | the renaming is that of the specification, overflow of the number and failure of the assertion included |
| `AlternativeNames.DropIncompleteUtf8` | QtZeroConf/avahi-common/alternative.c:34-49 | cuts a string in place to its longest UTF-8 start, or fails its assertion |
| `AlternativeNames.DropIsExact` | QtZeroConf/avahi-common/alternative.c:34-49 | of any bytes the longest UTF-8 start is kept, exactly if no ASCII byte lies behind it; otherwise the assertion fails |
| `AlternativeNames.AlternativeStops` | QtZeroConf/avahi-common/alternative.c:117-182 | renaming trips the assertion exactly if, in the part in front of the number, an ASCII byte lies behind the longest UTF-8 start |
| `AlternativeNames.RenamingTripsAssertion` | QtZeroConf/avahi-common/alternative.c:34-49 | one byte that is no UTF-8, and a letter, trip it |
| `AlternativeNames.DropOfPrefix` | QtZeroConf/avahi-common/alternative.c:34-49 | on a prefix of UTF-8 text the assertion holds and the longest valid start is kept |
| `AlternativeNames.AlternativeIsNext` | QtZeroConf/avahi-common/alternative.c:117-182 | the next name is valid, UTF-8, at most 63 bytes, numbered one higher, and keeps the longest UTF-8 start that leaves room |
| `AlternativeNames.IteratesCount` | QtZeroConf/avahi-common/alternative.c:117-182 | renaming k times raises the number by k as long as it fits an int |
| `AlternativeNames.IteratesDiffer` | QtZeroConf/avahi-common/alternative.c:117-182 | no name comes twice in that range |
| `AlternativeNames.IteratesEnd` | QtZeroConf/avahi-common/alternative.c:148 | one step further the number overflows an int |
| `AlternativeNames.DigitsOfNumber` | QtZeroConf/avahi-common/alternative.c:148-149 | a printed number is read back as itself and has no leading zero |
| `AlternativeNames.NumberedIff` | QtZeroConf/avahi-common/alternative.c:124-143 | a name is numbered exactly if it ends in a mark and a positive number as it is printed, which are then its number and its stem |
| `AlternativeNames.DigitsAreDecimal` | QtZeroConf/avahi-common/alternative.c:148-149 | printing is decimal |
| `TxtRecords.Serialize` | QtZeroConf/avahi-common/strlst.c:168-233 | writes what fits of the list in order of adding, a single NUL byte if there is nothing, and restores the list |
| `TxtRecords.SerializedSize` | QtZeroConf/avahi-common/strlst.c:213-233 | the size without a buffer is that of the whole record |
| `TxtRecords.TxtRoundTrip` | QtZeroConf/avahi-common/strlst.c:69-233 | the whole list goes through exactly if the buffer has the size asked for; any smaller one still parses into a start of the list whose last string may be cut |
| `TxtRecords.ParseList` | QtZeroConf/avahi-common/strlst.c:69-106 | succeeds exactly if the lengths add up, and gives the non-empty strings in order |
| `TxtRecords.ParseOfWire` | QtZeroConf/avahi-common/strlst.c:69-106 | parsing inverts writing |
| `TxtRecords.CarriedIs` | QtZeroConf/avahi-common/strlst.c:182-196 | of every string that is not empty the first 255 bytes are carried, in order |
| `TxtRecords.RecordLooksSo` | QtZeroConf/avahi-common/strlst.c:168-211 | two records, byte by byte |
| `TxtRecords.Reverse` | QtZeroConf/avahi-common/strlst.c:118-129 | reverses the list in place |
| `TxtRecords.FittingStarts` | QtZeroConf/avahi-common/strlst.c:168-233 | what fits is a start of the list, but for the last string |
| `TxtRecords.FittingIsWhole` | QtZeroConf/avahi-common/strlst.c:168-233 | it is all of it exactly if there is room |
| `TxtRecords.TotalReversed` | QtZeroConf/avahi-common/strlst.c:213-231 | the size does not depend on the order |
| `PollProtocol.StepKeepsInv` | QtZeroConf/avahi-common/simple-watch.c:132-594 | every call keeps the invariant: `n_watches` counts the live watches, entries and watches match one for one unless a rebuild is due, a dead watch implies the cleanup flag |
| `PollProtocol.RunInv` | QtZeroConf/avahi-common/simple-watch.c:132-594 | so in every run |
| `PollProtocol.PrepareSettles` | QtZeroConf/avahi-common/simple-watch.c:450-516 | after a preparation all watches are alive and occupy the entries behind the first in order |
| `PollProtocol.PrepareReclaims` | QtZeroConf/avahi-common/simple-watch.c:230-242 | a preparation leaves no dead timeout exactly if no watch was ever freed or no timeout was dead |
| `PollProtocol.DeadTimeoutsStay` | QtZeroConf/avahi-common/simple-watch.c:241 | in every run, once a watch has been freed no timeout leaves the list again |
| `PollProtocol.NextIsEarliest` | QtZeroConf/avahi-common/simple-watch.c:425-439 | the next timeout is the earliest enabled live one, the foremost among equals |
| `PollProtocol.SleepCovers` | QtZeroConf/avahi-common/simple-watch.c:504-509 | for every positive time left: the sleep covers it and at most a millisecond more exactly if the milliseconds and one more fit an int |
| `PollProtocol.SleepOverflows` | QtZeroConf/avahi-common/simple-watch.c:506 | a time left whose sleep is negative, that is for ever |
| `PollProtocol.PrepareSleeps` | QtZeroConf/avahi-common/simple-watch.c:479-513 | a preparation stores the wait itself if no timeout is pending; otherwise no time if the earliest is due, else a time that reaches it, by at most a millisecond more, and no more than a wait that is not negative, if the milliseconds fit an int |
| `PollProtocol.PrepareWakes` | QtZeroConf/avahi-common/simple-watch.c:479-513 | so with normalised times the loop sleeps past no pending timeout by more than a millisecond, and not for ever |
| `PollProtocol.LiveTimeoutsKept` | QtZeroConf/avahi-common/simple-watch.c:304-316 | freeing the dead timeouts keeps all others |
| `PollProtocol.LiveTimeoutsInOrder` | QtZeroConf/avahi-common/simple-watch.c:304-316 | in their order |
| `PollProtocol.EventsAreReported` | QtZeroConf/avahi-common/simple-watch.c:184-192 | the events of a watch are those last reported for its entry, and none once the entries are given out anew |
| `PollProtocol.TimeoutIsDueIff` | QtZeroConf/avahi-common/simple-watch.c:557-573 | a dispatch goes to a timeout exactly if an earliest pending one is at or behind its time, or at zero |
| `PollProtocol.NewWatchTripsDispatch` | QtZeroConf/avahi-common/simple-watch.c:581 | a run whose first dispatch fails its assertion, a watch having been created after the preparation |
| `PollProtocol.FreedTimeoutStays` | QtZeroConf/avahi-common/simple-watch.c:241 | a run after which a freed timeout is still listed, prepared and all |
| `PollProtocol.DispatchAsserts` | QtZeroConf/avahi-common/simple-watch.c:576-588 | the assertions hold exactly if a timeout is due or every live watch has an entry |
| `PollProtocol.DispatchCalls` | QtZeroConf/avahi-common/simple-watch.c:547-594 | at most one callback, of a live object: the next timeout if due, else the first watch with events |
| `PollProtocol.CyclesAreSafe` | QtZeroConf/avahi-common/simple-watch.c:450-594 | in every run a dispatch passes its assertions if no watch was created since the preparation |
| `PollLoop.SimplePoll.WatchNew` | QtZeroConf/avahi-common/simple-watch.c:132-166 | does to the object what the step does to its value, and keeps it valid; the new watch leads the list with the descriptor and events given |
| `PollLoop.SimplePoll.WatchUpdate` | QtZeroConf/avahi-common/simple-watch.c:168-182 | the same, the write into the array in range |
| `PollLoop.SimplePoll.WatchEvents` | QtZeroConf/avahi-common/simple-watch.c:184-192 | the events of the specification, the read in range |
| `PollLoop.SimplePoll.WatchFree` | QtZeroConf/avahi-common/simple-watch.c:203-216 | the same |
| `PollLoop.SimplePoll.CleanupWatches` | QtZeroConf/avahi-common/simple-watch.c:230-242 | leaves exactly the live watches, and clears the flag of the timeouts |
| `PollLoop.SimplePoll.CleanupTimeouts` | QtZeroConf/avahi-common/simple-watch.c:304-316 | leaves exactly the live timeouts |
| `PollLoop.SimplePoll.Rebuild` | QtZeroConf/avahi-common/simple-watch.c:385-423 | grows the array if it must and numbers the live watches in order, all writes in range |
| `PollLoop.SimplePoll.FindNextTimeout` | QtZeroConf/avahi-common/simple-watch.c:425-439 | finds the next timeout of the specification |
| `PollLoop.SimplePoll.Prepare` | QtZeroConf/avahi-common/simple-watch.c:450-516 | cleans up, rebuilds and sets the time to sleep as specified |
| `PollLoop.SimplePoll.Run` | QtZeroConf/avahi-common/simple-watch.c:518-545 | stores the reported events or fails |
| `PollLoop.SimplePoll.Dispatch` | QtZeroConf/avahi-common/simple-watch.c:547-594 | finds the callback of the specification, or fails its assertion |
| `Timevals.CompareIsOrder` | QtZeroConf/avahi-common/timeval.c:30-47 | on normalised times the comparison is the order of the totals |
| `Timevals.Diff` | QtZeroConf/avahi-common/timeval.c:49-57 | the difference of the totals, whichever is later |
| `Timevals.PlusConserves` | QtZeroConf/avahi-common/timeval.c:59-74 | adding conserves the total of microseconds; the result is normalised exactly unless they come to a negative multiple of a second |
| `Timevals.PlusLeavesAMillion` | QtZeroConf/avahi-common/timeval.c:65-67 | an addition whose result is not normalised |
| `Timevals.Clock.Add` | QtZeroConf/avahi-common/timeval.c:59-74 | adds in place as specified and conserves the total |
| `LinearFits.LinFit.Add` | libs/phd2loganalyzer.cpp:25-40 | after every point the fields are the batch means, population variances and covariance of all points |
| `LinearFits.MomentGrows` | libs/phd2loganalyzer.cpp:33-37 | the one-pass update of a covariance is exact |
| `LinearFits.SummaryIsBatch` | libs/phd2loganalyzer.cpp:25-40 | the division-free summary is the batch quantities |
| `LinearFits.VarianceIsPositive` | libs/phd2loganalyzer.cpp:41 | the divisor of the slope is positive exactly if the x differ |
| `LinearFits.FitIsOptimal` | libs/phd2loganalyzer.cpp:41-42 | no line has a smaller squared error than the fitted one |
| `LinearFits.FittedResiduals` | libs/phd2loganalyzer.cpp:69-75 | its residuals sum to zero and are orthogonal to x |
| `LinearFits.SummaryIsFitted` | libs/phd2loganalyzer.cpp:41-42 | slope and intercept of the accumulator are those of that line |
| `GuideLogs.RebuildPositions` | libs/phd2loganalyzer.cpp:52-67 | each position is the raw one less the guide moves before it, or the raw one itself |
| `GuideLogs.RaDriftIsRebuilt` | libs/phd2loganalyzer.cpp:255-263 | the right ascension drift is that of the rebuilt positions less the last guide move, so theirs exactly if no time passes or that move is zero |
| `GuideLogs.StillStarDrifts` | libs/phd2loganalyzer.cpp:255-263 | a star whose rebuilt positions stay in place and that is said to drift |
| `GuideLogs.Detrend` | libs/phd2loganalyzer.cpp:69-75 | when the times vary, what is left sums to zero and is orthogonal to time |
| `GuideLogs.DecDrift` | libs/phd2loganalyzer.cpp:265-278 | 60 times the slope of raw declination on time |
| `GuideLogs.LoweredSlope` | libs/phd2loganalyzer.cpp:267-277 | lowering all points by the same amount keeps the slope |
| `GuideLogs.ResidualStats` | libs/phd2loganalyzer.cpp:223-248 | the second accumulator is the batch of the residuals turned about their means by any angle; they keep their total variance and have mean zero |
| `GuideLogs.RotationKeepsVariance` | libs/phd2loganalyzer.cpp:239-247 | the same of any two batches |
| `GuideLogs.FittedLineIsAxis` | libs/phd2loganalyzer.cpp:41-44 | turned by the angle whose tangent is the slope, the fitted line is an axis |
| `StarZones.ZoneOf` | libs/solver.cpp:154-156 | a star inside the image falls into a zone that exists |
| `StarZones.ZoneIsRectangle` | libs/solver.cpp:154-156 | a star is in a zone exactly if it lies in the rectangle of its column and line, numbered along the lines |
| `StarZones.UpperRightIsOne` | libs/solver.cpp:154-156 | a star in the upper right of four zones is in zone 1 |
| `StarZones.SpreadGrows` | libs/solver.cpp:148-151 | Welford's update of the sum of squared deviations is exact |
| `StarZones.ZoneGrows` | libs/solver.cpp:158-166 | one more star keeps the averages and the spread of a zone exact, whatever they were before the first |
| `StarZones.ZoneIsBatch` | libs/solver.cpp:158-166 | they are the batch means and the sum of squared deviations of the stars in the zone |
| `StarZones.TotalGrows` | libs/solver.cpp:166 | the counts of the zones add up to the stars |
| `StarZones.Solver.ReadySEP` | libs/solver.cpp:139-191 | for every star list inside the image: counts and means of all zones, as rectangles, and of the image are the batch ones, the deviations the square roots of the batch variances, the axis ratio that of the mean axes; empty zones keep their start values |
| `ServiceBrowser.Browser.OnBrowse` | QtZeroConf/avahiclient.cpp:78-119 | every browse event: the maps and the signals afterwards |
| `ServiceBrowser.Browser.OnResolve` | QtZeroConf/avahiclient.cpp:121-182 | a found service is added once with its records, later only its address changes; one that cannot be resolved is removed but keeps its resolver |
| `ServiceBrowser.Browser.CleanUp` | QtZeroConf/avahiclient.cpp:184-201 | every service still there is reported as removed and both maps are empty |
| `ServiceBrowser.Browser.StartBrowser` | QtZeroConf/avahiclient.cpp:296-315 | an error without client or with a browser, and if none can be created |
| `ServiceBrowser.Browser.StopBrowser` | QtZeroConf/avahiclient.cpp:317-320 | no browser, no maps, every service still there reported as removed once, and a listener who knows of none |
| `ServiceBrowser.SignalsComeInRounds` | QtZeroConf/avahiclient.cpp:78-201 | of every service the signals come as (Added Updated* Removed)*, open exactly while it is known |
| `ServiceBrowser.KeysAreEqual` | QtZeroConf/avahiclient.cpp:88 | two services share a key exactly if the longer name goes on as the other number begins |
| `ServiceBrowser.KeyIsShared` | QtZeroConf/avahiclient.cpp:88 | some other service shares the key of a given one exactly if its interface has two digits or more, or its name ends in a number other than zeros |
| `ServiceBrowser.KeysCollide` | QtZeroConf/avahiclient.cpp:88 | two services with different names and interfaces and the same key |
| `ServiceBrowser.ReadTxt` | QtZeroConf/avahiclient.cpp:153-162 | the entry of a name is the last text that has it, split at the first equals sign |
| `ServiceBrowser.TextIsSplit` | QtZeroConf/avahiclient.cpp:153-162 | a text is its name, the first equals sign and its value |

## Left out

- Announcers: the callback that tells of group states, the contents of packets, goodbye packets, known-answer suppression, real time and jitter. The clock only decides which armed timer fires. The flags of an entry are fixed; updating a published entry in place is not modelled. Records are added past their checks of validity and conflict.
- Announcers: freeing groups and entries that are dead already.
- Memory: allocation never fails.
- BayerBilinear.Bilinear: sizes below 3 by 3 (5 by 5 for BayerHQLinear.HQLinear) are not covered.
- BayerHQLinear.HQLinear16: more than 30 bits and fewer than none, for which the shift is not defined in C.
- The nearest-neighbour, simple, edge-sense, VNG and AHD decoders, downsampling, and the 16-bit bilinear decoder: easier members or code with early returns.
- ServiceNames.ServiceNameJoin: what is read behind an unterminated text in an inner buffer is not modelled; it is reported as an overrun.
- Validity of strict service types, subtypes, host names and fully qualified names; renaming of host names.
- TxtRecords: printing lists, comparing and copying them, and key-value lookups.
- PollLoop: the wakeup pipe, interrupted polls (which are repeated), threads and freeing the loop. A callback is what the application does after a dispatch returns.
- Timevals: 64-bit overflow of microseconds.
- LinearFits and GuideLogs: floating-point rounding, square roots, angles (an angle is given by its cosine and sine), the spline, the transform and the peaks. With equal times the original divides zero by zero; GuideLogs.Detrend and GuideLogs.DecDrift ask for times that vary.
- StarZones.Solver.ReadySEP: the square root is a parameter, and a quotient by zero is no number. The lists must be as the reset leaves them; a second pass without a reset counts stars twice.
- ServiceBrowser: publishing, negative interface numbers, addresses beyond their text, and the order in which the services are reported at the end. The library calls back only for a resolver that is there.
