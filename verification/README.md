# pidnl, verified

pidnl polices the traffic of single processes. This project models its three connected parts in
Dafny and proves what they guarantee over whole runs:

- **the packet filter**: a token bucket in unsigned 64-bit arithmetic, on one CPU and on many
  (`TokenBucket.dfy`, `BucketLaws.dfy`, `BucketSmp.dfy`);
- **limits and the death-watch daemon**: setting, removing and cleaning limits over an abstract
  kernel where every call may fail, and the daemon that removes the limits of dead processes by
  walking a table its own callback changes (`Kernel.dfy`, `RateLimit.dfy`, `Watch.dfy`,
  `Monitor.dfy`);
- **the window and its privileged helper**: discovery, the line protocol between the two, and the
  list store as a cache of the limits in force (`Text.dfy`, `Discovery.dfy`, `Protocol.dfy`,
  `Gui.dfy`).

`dafny verify dfyconfig.toml` checks everything.

## How it is modelled

- The filter's locked section is a method on the fields it updates; it is proved equal to `Step`,
  the same bucket in mathematical integers, and the laws are about runs of `Step`. A run is a
  sequence of packets carrying the clock value read before the lock, in any order. `Meter` is any
  refill function within four bounds; `MeterOf` shows that the filter's refill is one for every
  limit.
- On several CPUs every write of the locked section is a separate step, with the reads it depends
  on, and a schedule is any sequence of steps of any CPUs. `log` holds the packets in the order the
  lock was taken. A CPU carries one packet at a time; a packet taken up by an interrupt between
  another's clock read and its lock counts as one on a further CPU.
- System and library calls return what a `...Calls` value says, so an operation is a function of
  the kernel's state and of which calls fail. The kernel's own rules are stated at the head of
  `Kernel.dfy`.
- The daemon's table is an array changed in place. `Watch.dfy` says what the daemon does without
  it; `Monitor.dfy` proves the table, the poll array, the re-entrant death pass and the loop equal
  to that, and who is unregistered over a run equal to `GivenUpTo`. `pidfd_open` may return any
  number not open at that moment.
- Messages to the daemon are recorded in `sent`; the source ignores the answers.
- A read from a pipe either ends or waits. A window whose read waits never acts again.
- Text is `string`. A line ends where a GIOChannel with its default terminator ends it: newline,
  carriage return, NUL or U+2029.
- `Decimal`, `ScanInt` and the other readers are unbounded; wherever pidnl reads a number it also
  checks a range well inside `long`, so overflow reports change no outcome.

## Where the code falls short of what one would expect

Each is stated as it is, with the condition under which the expectation does hold, exact unless said
otherwise.

- Refills are truncated and the remainder is not carried over, so a steady stream of closely
  spaced packets is refused for ever once the bucket holds less than a packet, however low its
  rate, exactly when its gap refills nothing: `RefusedForEverIff`, and `NoRefillIff` for the gaps
  concerned. `StarvationExample` is an instance; `SteadyCount` and `AllPass` say exactly how many
  packets pass otherwise. A packet larger than two seconds' worth never passes (`NeverPassesIff`).
- A higher limit lets through at least as many packets if they are of one size (`Dominance`, a
  sufficient condition); with mixed sizes it may let through fewer (`DominanceNeedsEqualSizes`).
- A set that returns OK leaves an earlier limit in force in a direction now unlimited when the
  calls that should detach it failed: `LimitProcessBandwidth` gives the condition `StaleGone`.
- A removal reports OK whether or not anything was removed (`DeletePidCgroup`), and a clean that
  cannot look at the cgroup reports OK without doing anything (`CleanupAll`).
- A WATCH that is answered OK is undone in the same turn when the PID was watched already and its
  old descriptor is readable: `WatchAckKept`, and `WatchAckLost` for a run in which it happens.
- The sanitiser leaves U+2029 in names and paths (`ParagraphPassesSanitiser`), which is a line end
  to the reader and puts client and helper out of step: `LockstepIff`.
- The error reply to a list command reads as a list of two, so a refresh whose discovery fails
  waits for four lines that never come: `ErrorReplyReadAsList`, `Refresh`.

## Model

| member | source | states |
|---|---|---|
| TokenBucket.RateLimitState.ApplyRateLimit | lib/src/ratelimit.bpf.c:38-77 | for every u32 limit all 64-bit products and sums are exact (only the time difference may wrap): the in-place update equals the mathematical bucket step, and the level stays within 2L |
| TokenBucket.MachineRefill | lib/src/ratelimit.bpf.c:53-57 | the wrapped computation of the refill equals the mathematical refill for all limits and all pairs of clock values, and is at most one second's worth |
| TokenBucket.Filter.Egress | lib/src/ratelimit.bpf.c:79-87 | an egress packet moves the upload bucket by its own limit and leaves the download bucket alone |
| TokenBucket.Filter.Ingress | lib/src/ratelimit.bpf.c:89-97 | an ingress packet moves the download bucket by its own limit and leaves the upload bucket alone |
| TokenBucket.RefillBounds | lib/src/ratelimit.bpf.c:53-57 | a refill is never ahead of the exact amount, exactly L after a second or more, and short of the exact amount by at most one byte plus one microsecond's worth |
| BucketLaws.NeverAboveDepth | lib/src/ratelimit.bpf.c:62-66 | in every run the bucket never holds more than 2L |
| BucketLaws.RateBound | lib/src/ratelimit.bpf.c:41-75 | between any two points of a run with clock values in any order: accepted bytes plus tokens grow by at most kL plus L times the time moved forward, k being the packets applied with an older clock value |
| BucketLaws.ForwardIsNetPlusBack | lib/src/ratelimit.bpf.c:41-60 | the time moved forward is the net movement of the stored clock plus the total backward distance |
| BucketLaws.Stretch | lib/src/ratelimit.bpf.c:38-77 | any stretch of packets i..j, clock values in any order, whatever came before: at most (k+2)L, and at most what was held plus (k+1)L, plus L times the duration and what was moved back, k being the older clock values after the first packet |
| BucketLaws.Envelope | lib/src/ratelimit.bpf.c:38-77 | any in-order stretch i..j passes at most 2L + L(t_j - t_i), whatever came before |
| BucketLaws.FreshEnvelope | lib/src/ratelimit.bpf.c:38-77 | a fresh limiter's in-order run passes at most L + L(t_n - t_1), however long the machine was up |
| BucketLaws.EnvelopeInBits | lib/src/ratelimit.bpf.c:40-77 | the in-order envelope in the limit's own unit: bits passed are at most 1000 kbps times two seconds and the stretch's duration |
| BucketLaws.FreshRateBound | lib/src/ratelimit.bpf.c:41-75 | a fresh limiter with clock values in any order passes at most (k+1)L + L(t_n - t_1 + B) |
| BucketLaws.Conformance | lib/src/ratelimit.bpf.c:53-73 | in order, the bucket never holds more than an exact-arithmetic bucket of the same rate and depth fed the accepted packets, so each accepted packet conforms to that one too |
| BucketLaws.Dominance | lib/src/ratelimit.bpf.c:40-73 | with packets of one size and clock values in any order, a higher limit has accepted at least as many packets after every prefix |
| BucketLaws.DominanceNeedsEqualSizes | lib/src/ratelimit.bpf.c:40-73 | with mixed sizes it can accept fewer |
| BucketLaws.Conservation | lib/src/ratelimit.bpf.c:53-73 | tokens held, bytes accepted and credit discarded by the cap add up to the initial tokens plus all refills |
| BucketLaws.TruncationBounded | lib/src/ratelimit.bpf.c:53-57 | over n packets the refill is short of L times the time (each gap capped at 1 s) by at most n(1 + L/10^6) bytes |
| BucketLaws.Throughput | lib/src/ratelimit.bpf.c:53-73 | bytes passed plus credit discarded by the cap are at least L times the run's capped time, less 2L and the rounding, in every run |
| BucketLaws.ThroughputInBits | lib/src/ratelimit.bpf.c:40-73 | the lower side in the same unit |
| BucketLaws.Progress | lib/src/ratelimit.bpf.c:54-73 | with gaps of a second or more nothing up to L is dropped, and of two packets in a row up to 2L one passes |
| BucketLaws.NeverPassesIff | lib/src/ratelimit.bpf.c:62-73 | a size is refused in every run of a fresh limiter exactly when it exceeds 2L |
| BucketLaws.NoRefillIff | lib/src/ratelimit.bpf.c:53-57 | a gap refills nothing exactly when L times its whole microseconds is below 10^6 |
| BucketLaws.Starvation | lib/src/ratelimit.bpf.c:53-73 | a stretch of gaps that refill nothing passes only what the bucket held at its start, however long it is |
| BucketLaws.WaitIsBounded | lib/src/ratelimit.bpf.c:53-73 | while packets up to a size within the depth are refused and each gap refills r bytes or more, the bucket gains r a packet, so fewer than size / r refusals follow one another |
| BucketLaws.SteadyCount | lib/src/ratelimit.bpf.c:53-73 | a steady stream of packets up to L bytes, once less than a packet is held: exactly (held + n * refill) / size of n packets pass, where a gap refills less than a packet |
| BucketLaws.AllPass | lib/src/ratelimit.bpf.c:53-73 | where each gap refills a whole packet every one passes |
| BucketLaws.RefusedForEverIff | lib/src/ratelimit.bpf.c:53-73 | a steady stream of packets within the depth, once less than a packet is held, is refused for ever if and only if its gap refills nothing |
| BucketLaws.StarvationExample | lib/src/ratelimit.bpf.c:53-73 | at 1 kbit/s, packets 7 ms apart pass 125 bytes in all at most, whenever the first of them comes and however many follow |
| BucketLaws.DirectionsIndependent | lib/src/ratelimit.bpf.c:79-97 | in any interleaving each direction's bucket is that of its own packets run alone |
| BucketLaws.VerdictAlone | lib/src/ratelimit.bpf.c:79-97 | and each verdict is the one the packet gets with its own direction's packets alone |
| BucketLaws.Feed | lib/src/ratelimit.bpf.c:79-97 | the two machine-integer programs of one loaded filter, run over any interleaving, give those verdicts and those buckets |
| BucketSmp.Reachable | lib/src/ratelimit.bpf.c:41-76 | in every state any schedule of any CPUs reaches: one CPU inside at most, and bucket and verdicts those of the packets run one at a time in lock order |
| BucketSmp.DepthEverywhere | lib/src/ratelimit.bpf.c:48-75 | in every reachable state tokens are at most 2L, or 3L between one CPU's refill and its cap |
| BucketSmp.SmpRateBound | lib/src/ratelimit.bpf.c:41-75 | in every state of every interleaving, section in progress or not, bytes passed are at most (k+1)L + L(t_n - t_1 + B) |
| BucketSmp.SmpStretch | lib/src/ratelimit.bpf.c:41-75 | the same between any two packets of the lock order: at most (k+2)L + L(t_j - t_i + B), k and B counted over that stretch |
| BucketSmp.BackwardCost | lib/src/ratelimit.bpf.c:41-53 | the total backward distance B is at most k times the longest wait between reading the clock and getting the lock |
| BucketSmp.SingleCpuInOrder | lib/src/ratelimit.bpf.c:41-60 | with one packet under way at a time clock values are applied in order in every schedule |
| BucketSmp.SingleCpuEnvelope | lib/src/ratelimit.bpf.c:41-75 | so the fresh envelope holds with no extra term, in every state |
| BucketSmp.TwoCpusCanGoBack | lib/src/ratelimit.bpf.c:41-53 | two CPUs suffice for a schedule that applies an older clock value |
| Kernel.GetIsSlots | lib/src/ratelimit.c:394-483 | in every state the operations keep, the limits read back are exactly those in force, unlimited where no program is attached |
| Kernel.GetElsewhere | lib/src/ratelimit.c:457-483 | an operation on one PID leaves every other PID's limits as read |
| RateLimit.RateLimiter.DetachPinnedLinks | lib/src/ratelimit.c:126-148 | which pins and programs of the PID survive, for each combination of failing calls; no other PID is touched |
| RateLimit.RateLimiter.DeleteCgroup | lib/src/ratelimit.c:150-160 | without the descriptor the programs go but the pins stay; with it both go |
| RateLimit.RateLimiter.AttachBpfPrograms | lib/src/ratelimit.c:162-216 | succeeds exactly when the calls do and the pin paths are free; a failure can leave upload attached but never download |
| RateLimit.RateLimiter.LimitProcessBandwidth | lib/src/ratelimit.c:257-326 | from any state the operations keep, stale pins included: exactly when it succeeds, and otherwise which code the first failing call gives; the limits then read back are the requested pair if and only if no earlier program survived in a direction now unlimited; after a failure exactly what is left of cgroup, programs, pins and pin directory, so that a PID that had nothing is left with nothing if and only if nothing was created or the rollback's calls that had something to undo succeeded; the PID is handed to the monitor exactly after success; other PIDs unchanged |
| RateLimit.SetGetRoundTrip | lib/src/ratelimit.c:304-317 | the set/get round trip and its exact condition |
| RateLimit.RateLimiter.DeletePidCgroup | lib/src/ratelimit.c:222-243 | which code is returned when; after OK no limit is in force if and only if the cgroup was removed or every program released |
| RateLimit.DeleteGet | lib/src/ratelimit.c:222-243 | the same read back through the limits query |
| RateLimit.RateLimiter.CleanupAll | lib/src/ratelimit.c:350-392 | exactly the walked PIDs whose deletion's calls succeed lose their cgroup, whatever becomes of the other entries; PIDs not walked are untouched; OK exactly when the clean could not look, or removed the root with no child left; the monitor is told to stop exactly after a walk that ends OK; after a full walk with succeeding calls OK means every child was some PID's cgroup |
| RateLimit.PidNameRoundTrip | lib/src/ratelimit.c:218-220 | every PID's cgroup name fits 64 bytes and the walk reads it back as that PID |
| RateLimit.NoPidName | lib/src/ratelimit.c:371-375 | names with anything after the number, out of range or not digits to their end are passed over |
| RateLimit.CleanLeavesNoLimit | lib/src/ratelimit.c:382-391 | with no child cgroup left no PID is limited |
| Watch.DeathPassExact | lib/src/monitor.c:196-264 | the dead of a turn are exactly the PIDs watched at poll time, readable and not removed by the command; a PID added in the turn is never among them, whatever descriptor number it got |
| Watch.AlwaysSound | lib/src/monitor.c:55-99 | over all runs watched PIDs have distinct descriptors, none the socket's |
| Watch.AckMeans | lib/src/monitor.c:234-242 | what each answer tells: WATCH is OK exactly when the PID is then watched, with the two reasons for refusal; UNWATCH is OK exactly when it was; STOP always; anything else is not found; which PIDs the list gains or loses |
| Watch.TurnMeans | lib/src/monitor.c:189-264 | who is watched after a turn, in terms of the event alone; interrupted, failed and dropped turns change nothing |
| Watch.LeavesIff | lib/src/monitor.c:189-270 | a running daemon leaves the loop in a turn exactly when poll failed, or a turn that was not dropped brought a STOP or left nobody watched; the status says which |
| Watch.RunningIff | lib/src/monitor.c:189-270 | a daemon is still running exactly when no event so far ended the loop |
| Watch.WatchAckKept | lib/src/monitor.c:55-58 | a WATCH answered OK survives its turn exactly when the PID was not already watched with a readable descriptor |
| Watch.WatchAckLost | lib/src/monitor.c:55-58 | a run in which a WATCH answered OK is undone in its own turn |
| Watch.OffTheListWasLetGo | lib/src/monitor.c:189-270 | a PID that leaves the list between two turns was taken off it in one of them, by an UNWATCH of that turn or by being unregistered in it |
| Watch.AccountedFor | lib/src/monitor.c:189-270 | so it was taken off by an UNWATCH or is among those the run unregistered |
| Watch.NoAbandonedWatch | lib/src/monitor.c:189-270 | with no STOP and no poll error, the loop exits only when every PID ever on the list was taken off it by an UNWATCH or by being unregistered, in a turn that really removed it, through all early continues |
| Watch.LedgerBalances | lib/src/monitor.c:71-95 | in a proper descriptor log every opening has exactly one closing, but for what is still open |
| Monitor.Monitor.FindPidSlot | lib/src/monitor.c:45-52 | finds the one slot that holds the PID |
| Monitor.Monitor.AddPidToWatch | lib/src/monitor.c:55-83 | the table moves as the set of watches does, in all four outcomes; a PID without a pidfd is unregistered at once and its cgroup goes when the calls succeed; otherwise the kernel is untouched; counts, distinctness and the descriptor log are kept |
| Monitor.Monitor.RemovePidFromWatch | lib/src/monitor.c:86-99 | removes the watch, clears that PID's slot and no other, and closes its descriptor once |
| Monitor.Monitor.UnregisterRateLimiterByPid | lib/src/ratelimit.c:344-348 | called back into the table being walked it clears exactly the PID's slot; the cgroup goes when the calls succeed; other PIDs' limits are unchanged; the recursion through send_command ends |
| Monitor.Monitor.SendCommand | lib/src/monitor.c:339-348 | inside the daemon a command is the table operation itself |
| Monitor.Monitor.BuildPollSet | lib/src/monitor.c:190-202 | the poll array holds the socket and exactly the watched descriptors, one entry each, and never overflows |
| Monitor.Monitor.DeathPass | lib/src/monitor.c:253-264 | the pass over the table it is changing clears exactly the slots whose descriptor was polled and readable, and hands exactly those PIDs on, in slot order |
| Monitor.Monitor.AfterPoll | lib/src/monitor.c:212-264 | each PID watched at poll time, readable and not removed by the command is unregistered once, after the one whose watch failed, and no other; they lose their cgroups when the calls succeed; no other PID's limits change, the command's own included |
| Monitor.Monitor.Turn | lib/src/monitor.c:189-270 | one loop iteration with slots, poll array and early continues equals one turn of the abstract daemon, leaves the loop exactly when the event ends it, unregisters exactly the PIDs that turn gives up, once each, and changes the limits of no other |
| Monitor.Monitor.Run | lib/src/monitor.c:187-277 | a whole run equals the abstract run and is still going exactly when no event ended it; every PID taken off the list was UNWATCHed or unregistered; those unregistered are exactly those given up, as often; a PID given up has no cgroup at the end where its calls succeeded and no other PID's limits change; the descriptor log stays proper and nothing is open once the daemon has left |
| Monitor.FullTable | lib/src/monitor.c:60-69 | the number of active slots never exceeds the table and equals it exactly when no slot is free |
| Discovery.ProcessList.Add | lib/src/discovery.c:57-121 | the growing array absorbs one observation; it doubles exactly when full and the PID is new, and fails exactly when it then cannot be reallocated |
| Discovery.AggregateMeans | lib/src/discovery.c:57-121 | for all observations: one entry per distinct PID in first-seen order, connections the number of occurrences, protocol flags exactly those seen, names as at first sight |
| Discovery.QuerySockets | lib/src/discovery.c:181-241 | one query adds to the list exactly the sockets of root and ordinary users whose owner was found; where memory suffices it succeeds exactly when it was sent and answered in full |
| Discovery.GetNetworkProcesses | lib/src/discovery.c:243-283 | a list returned is the aggregate of what the four queries observed; where memory suffices the code says exactly which call failed |
| Discovery.ListMeans | lib/src/discovery.c:227-279 | in terms of the sockets reported: an entry's connections are the sockets of that process owned by root or a user from 1000 on, its TCP flag says whether the first two queries reported any, its UDP flag whether the others did, and one of them is set |
| Discovery.ListCovers | lib/src/discovery.c:227-279 | every process with such a socket has an entry |
| Discovery.CleanName | lib/src/discovery.c:89-105 | a name has at most 31 characters, none of them a control character |
| Discovery.NameKept | lib/src/discovery.c:89-105 | a name is shown without the newline that ended its line, cut to 31 characters, every printable character in its place and every other one a question mark |
| Discovery.PathKept | lib/src/discovery.c:107-117 | the same for a path, cut to 4095 characters |
| Protocol.BackendList | gui/backend.c:100-139 | the reading loop returns and leaves unread what the line-by-line definition says, on an open and on a closed pipe, or is still waiting exactly when that is |
| Protocol.LineLengthMeans | gui/backend.c:115-130 | a line ends at its first terminator, CR LF counting as one |
| Protocol.NoCountNoRows | gui/backend.c:124-127 | a first line that is no positive number is returned alone and nothing after it is read |
| Protocol.ListInLockstep | gui/main.c:18-45 | the list call consumes exactly the lines the helper wrote for it, whatever follows |
| Protocol.LockstepIff | lib/src/discovery.c:96-117 | for sanitised names and paths it does so exactly when none contains a paragraph separator |
| Protocol.ParagraphPassesSanitiser | lib/src/discovery.c:91-102 | a name with a paragraph separator comes through the sanitiser unchanged |
| Protocol.ErrorReplyReadAsList | gui/backend.c:124-136 | the helper's error reply is read as a list of two: the call swallows the next four lines, and waits exactly when fewer follow |
| Protocol.PopulateStoreFromRaw | gui/processes.c:463-503 | the parsing loop builds the rows the row-by-row definition says |
| Protocol.ProtocolsTell | gui/processes.c:441-450 | the text shown names TCP exactly when there is TCP and UDP exactly when there is UDP |
| Protocol.RowIff | gui/processes.c:484-498 | a line gives a row exactly when six numbers and a name can be read from it |
| Protocol.RowCountOf | gui/processes.c:472-477 | a count with anything after it, or out of range, is no count |
| Protocol.WireFormat | gui/main.c:31-41 | the order of the fields on the wire |
| Protocol.ListRoundTrip | gui/processes.c:463-503 | parsing undoes printing: the rows come back in order with their limits; leading blanks are lost and blank names skipped without shifting later rows |
| Gui.LimitTextRoundTrip | gui/processes.c:153-161 | the text shown for a limit parses back to it |
| Gui.UnlimitedTexts | gui/processes.c:128-150 | exactly three texts mean unlimited; no number does |
| Gui.RefusedIff | gui/processes.c:129-140 | exactly which texts are refused as a limit: all but the three for unlimited and those that are a number to their end and not below zero |
| Gui.LimitClamped | gui/processes.c:142-149 | every number is taken at its value, up to the largest real limit |
| Gui.StripMeans | gui/processes.c:183-184 | stripping cuts the white space off both ends, all of it and nothing else |
| Gui.LimitCommandRoundTrip | gui/backend.c:147-148 | every limit command fits the helper's buffer whole and is parsed back to the same PID and limits |
| Gui.CommandFormat | gui/backend.c:147-148 | the commands and answers as they stand on the wire |
| Gui.LimitCommandIff | gui/main.c:48-60 | a limit command is taken exactly when every number is in its range |
| Gui.DiscoveryIsGood | lib/src/discovery.c:57-121 | whatever was observed, the discovered list meets what the protocol theorems ask, paragraph separators aside |
| Gui.Helper.HandleLimit | gui/main.c:47-77 | answered OK exactly when a set succeeds, or for both unlimited unless the cgroup handle could not be made, a limit that is not there included; the requested pair is then in force exactly under the stated condition on the calls; which message goes to the monitor; malformed or out-of-range lines change nothing |
| Gui.Window.SetLimit | gui/backend.c:141-163 | the call consumes exactly its one-line answer and reports it: OK exactly when the helper accepts |
| Gui.Window.Refresh | gui/main.c:123-132 | returns exactly when discovery succeeds; then the store is the view of the discovered processes with the limits in force, and both pipes are drained |
| Gui.Window.ApplyLimit | gui/processes.c:163-212 | OK exactly when the text means a limit and the helper accepts; then the PID's row has the new limit in that direction and no row differs otherwise, and a store that equalled what the kernel reports still does; on bad text or an error the store is untouched; what the entry shows in each case; no other PID's limits change |
| Gui.Window.Clean | gui/main.c:134-150 | answered OK exactly when the clean ends so; exactly the walked PIDs whose deletions succeed lose their limits; after OK the rows again equal the kernel's limits, and none is in force if the clean could walk the cgroup |
| Gui.Window.Session | gui/main.c:123-150 | any sequence of refreshes, edits and cleans leaves both pipes drained after each, or hangs at one whose discovery failed; the rows equal the kernel's limits at the end if every edit since the last refresh or OK clean was answered OK, and truly so, or was never sent |
| Gui.SessionAgrees | gui/processes.c:163-212 | the same after every step of the session |

## Left out

- GTK widgets, icons, columns and sorting (gui/processes.c, gui/main.c): user interface.
- libbpf, libcgroup, netlink, /proc and the mount table: replaced by the abstract kernel and by the outcomes of calls.
- Daemon start-up, double fork, ready pipe and socket directory (lib/src/monitor.c:134-181, 286-336): one daemon is taken to be listening.
- Partial reads and writes and EINTR on sockets: whole messages are assumed, as the source notes itself.
- LimitProcessBandwidth: stops at the message to the monitor, whose answer the source ignores.
- CleanupAll: does not model cgroups nested below a PID's.
- What the daemon does with the messages of a window's session: the session ends with their being sent, and `Run` takes commands from any source.
- Run: does not interleave limits set by others during the run; each `Turn` is exact for whatever kernel state it starts from.
- SingleCpuInOrder: does not cover a second packet taken up on the same processor between a clock read and its lock; that counts as a second CPU, and the multi-CPU bounds cover it.
- Pins whose PID cgroup is already gone are not claimed to be removed by unset or clean: the source returns before detaching.
- Agreement of the list store after an error reply: a failed set may have removed the earlier limit.
- DeathPassExact: does not say what happens to a descriptor number reused across turns by the same PID; each turn is exact for the table it starts with.
- Refresh: takes a list whose names and paths have no U+2029; `LockstepIff` shows this is needed.
- ProtocolInt: a count above half of INT_MAX, whose doubling would overflow, is not modelled.
- Integer overflow of `num_connections` and of `sscanf`'s `%d` and `%u` on foreign input; UTF-8 decoding and locales.
- The map lookups of the filter that return no entry: array maps always have theirs.
- The helper's start-up ready line and its QUIT command (gui/main.c).
- Which cgroup a task belongs to; only cgroups and programs are tracked.
- cli/main.c, error strings, packaging and shell scripts.
