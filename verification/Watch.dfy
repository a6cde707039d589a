/** What the death-watch daemon does, told without its table: the watched PIDs with their
    pidfds, one poll at a time.  Monitor.dfy proves the daemon's table and loops equal to this. */
module Watch {
  import opened Kernel
  import opened RateLimit

  const MAX_WATCHED_PIDS: nat := 1024

  datatype MonitorCode = MonitorOk | MonitorPidfd | MonitorSlots | MonitorNotFound

  const CMD_WATCH := 1
  const CMD_UNWATCH := 2
  const CMD_STOP := 3

  /** What one `accept` brings.  `opens` and `hint` say what `pidfd_open` does if it is called. */
  datatype Connection =
    | NoConnection
    | Dropped                                 // accept failed, peer not root, or short message
    | Command(cmd: int, pid: int, opens: bool, hint: nat)

  datatype Event =
    | Interrupted                             // poll returned EINTR
    | PollFailed
    | Ready(connection: Connection, readable: set<int>, deletes: map<int, DeleteCalls>)

  type Watched = map<int, nat>

  ghost function Fds(w: Watched): set<int> { set p | p in w :: w[p] as int }

  ghost predicate Distinct(w: Watched) {
    forall p, q :: p in w && q in w && w[p] == w[q] ==> p == q
  }

  /** The kernel hands out any number that is not open: every choice is some `hint`. */
  function FreshFd(open: set<int>, hint: nat): (fd: nat)
    ensures fd !in open && fd >= hint
    ensures hint !in open ==> fd == hint
    decreases |open|
  {
    if hint !in open then hint else FreshFd(open - {hint}, hint + 1)
  }

  /** `add_pid_to_watch`. */
  ghost function Add(w: Watched, socket: int, pid: int, opens: bool, hint: nat): (Watched, MonitorCode) {
    if pid in w then (w, MonitorOk)
    else if |w| >= MAX_WATCHED_PIDS then (w, MonitorSlots)
    else if !opens then (w, MonitorPidfd)
    else (w[pid := FreshFd(Fds(w) + {socket}, hint)], MonitorOk)
  }

  /** `remove_pid_from_watch`. */
  ghost function Remove(w: Watched, pid: int): (Watched, MonitorCode) {
    if pid in w then (w - {pid}, MonitorOk) else (w, MonitorNotFound)
  }

  ghost function AfterConnection(w: Watched, socket: int, c: Connection): Watched {
    if !c.Command? then w
    else if c.cmd == CMD_WATCH then Add(w, socket, c.pid, c.opens, c.hint).0
    else if c.cmd == CMD_UNWATCH then Remove(w, c.pid).0
    else w
  }

  /** The reply, for a command. */
  ghost function Ack(w: Watched, socket: int, c: Connection): MonitorCode
    requires c.Command?
  {
    if c.cmd == CMD_WATCH then Add(w, socket, c.pid, c.opens, c.hint).1
    else if c.cmd == CMD_UNWATCH then Remove(w, c.pid).1
    else if c.cmd == CMD_STOP then MonitorOk
    else MonitorNotFound
  }

  /** What the answers tell the client.  A WATCH is OK exactly when the PID is watched afterwards, is
      refused for want of slots only by a full table, and for want of a pidfd only when none could
      be had; an UNWATCH is OK exactly when the PID was watched, and takes off that PID alone; a STOP
      is always OK; anything else is not found.  Only WATCH and UNWATCH change the list. */
  lemma AckMeans(w: Watched, socket: int, c: Connection)
    requires c.Command?
    ensures var now, ack := AfterConnection(w, socket, c), Ack(w, socket, c);
            && (c.cmd == CMD_WATCH ==>
                  && (ack == MonitorOk <==> c.pid in now)
                  && (ack == MonitorSlots <==> c.pid !in w && |w| >= MAX_WATCHED_PIDS)
                  && (ack == MonitorPidfd <==> c.pid !in w && |w| < MAX_WATCHED_PIDS && !c.opens)
                  && ack != MonitorNotFound && (forall p :: p != c.pid ==> (p in now <==> p in w)))
            && (c.cmd == CMD_UNWATCH ==>
                  && (ack == MonitorOk <==> c.pid in w) && (ack == MonitorNotFound <==> c.pid !in w)
                  && c.pid !in now && (forall p :: p != c.pid ==> (p in now <==> p in w)))
            && (c.cmd == CMD_STOP ==> ack == MonitorOk && now == w)
            && (c.cmd != CMD_WATCH && c.cmd != CMD_UNWATCH && c.cmd != CMD_STOP ==> ack == MonitorNotFound && now == w)
            && (forall p :: p in now && p in w ==> now[p] == w[p])
  {}

  /** The death pass: whoever is still in the table under a descriptor in `hot` goes. */
  ghost function Survivors(w: Watched, hot: set<int>): Watched {
    map p | p in w && w[p] as int !in hot :: w[p]
  }

  datatype Status = Running | Empty | Stopped | PollError

  datatype Daemon = Daemon(watched: Watched, status: Status)

  /** One turn of the event loop; once it has left the loop nothing changes. */
  ghost function Turn(d: Daemon, socket: int, e: Event): Daemon {
    if d.status != Running then d
    else match e
      case Interrupted => d
      case PollFailed => d.(status := PollError)
      case Ready(Dropped, _, _) => d
      case Ready(c, readable, _) =>
        var left := Survivors(AfterConnection(d.watched, socket, c), readable * Fds(d.watched));
        Daemon(left, if left == map[] then Empty else if c.Command? && c.cmd == CMD_STOP then Stopped else Running)
  }

  /** The event ends the loop when it leaves `left` on the list: poll failed, or any connection was
      served and it brought a STOP or nobody is left to watch. */
  ghost predicate EndsLoop(e: Event, left: Watched) {
    || e.PollFailed?
    || (e.Ready? && !e.connection.Dropped? && (left == map[] || (e.connection.Command? && e.connection.cmd == CMD_STOP)))
  }

  /** A running daemon leaves the loop in a turn exactly when the event ends it, and the status says
      why. */
  lemma LeavesIff(d: Daemon, socket: int, e: Event)
    requires d.status == Running
    ensures var now := Turn(d, socket, e);
            && (now.status != Running <==> EndsLoop(e, now.watched))
            && (now.status == PollError <==> e.PollFailed?)
            && (now.status == Empty <==> e.Ready? && !e.connection.Dropped? && now.watched == map[])
            && (now.status == Stopped ==> e.Ready? && e.connection.Command? && e.connection.cmd == CMD_STOP && now.watched != map[])
  {}

  ghost function After(socket: int, es: seq<Event>, n: nat): Daemon
    requires n <= |es|
  {
    if n == 0 then Daemon(map[], Running) else Turn(After(socket, es, n - 1), socket, es[n - 1])
  }

  /** A daemon is still running exactly when no event so far ended the loop. */
  lemma {:induction false} RunningIff(socket: int, es: seq<Event>, n: nat)
    requires n <= |es|
    ensures After(socket, es, n).status == Running <==>
              forall k :: 0 <= k < n ==> !EndsLoop(es[k], After(socket, es, k + 1).watched)
  {
    if n > 0 {
      RunningIff(socket, es, n - 1);
      if After(socket, es, n - 1).status == Running {
        LeavesIff(After(socket, es, n - 1), socket, es[n - 1]);
        assert After(socket, es, n) == Turn(After(socket, es, n - 1), socket, es[n - 1]);
      }
    }
  }

  // ---- the death pass is exact ----------------------------------------------------------

  ghost predicate Unwatches(e: Event, p: int) {
    e.Ready? && e.connection.Command? && e.connection.cmd == CMD_UNWATCH && e.connection.pid == p
  }

  ghost predicate Sound(w: Watched, socket: int) { Distinct(w) && socket !in Fds(w) }

  lemma AddSound(w: Watched, socket: int, pid: int, opens: bool, hint: nat)
    requires Sound(w, socket)
    ensures Sound(Add(w, socket, pid, opens, hint).0, socket)
    ensures forall p :: p in w ==> p in Add(w, socket, pid, opens, hint).0 && Add(w, socket, pid, opens, hint).0[p] == w[p]
    ensures forall p :: p in Add(w, socket, pid, opens, hint).0 && p !in w ==> Add(w, socket, pid, opens, hint).0[p] as int !in Fds(w)
  {
    assert forall p :: p in w ==> w[p] as int in Fds(w);
  }

  lemma ConnectionSound(w: Watched, socket: int, c: Connection)
    requires Sound(w, socket)
    ensures Sound(AfterConnection(w, socket, c), socket)
    ensures forall p :: p in AfterConnection(w, socket, c) && p in w ==> AfterConnection(w, socket, c)[p] == w[p]
    ensures forall p :: p in AfterConnection(w, socket, c) && p !in w ==> AfterConnection(w, socket, c)[p] as int !in Fds(w)
  {
    if c.Command? && c.cmd == CMD_WATCH {
      AddSound(w, socket, c.pid, c.opens, c.hint);
    }
  }

  /** Exactly the PIDs watched at poll time, reported readable and not removed by this turn's
      command are unregistered; a PID added in this turn is never taken for a dead one, even
      though its descriptor number may have belonged to another before. */
  lemma DeathPassExact(w: Watched, socket: int, c: Connection, readable: set<int>, p: int)
    requires Sound(w, socket)
    ensures var now := AfterConnection(w, socket, c);
            var hot := readable * Fds(w);
            p in now && p !in Survivors(now, hot) <==>
              p in w && w[p] as int in readable && !(c.Command? && c.cmd == CMD_UNWATCH && c.pid == p)
  {
    ConnectionSound(w, socket, c);
    if p in w {
      assert w[p] as int in Fds(w);
    }
  }

  /** Who is watched after a turn, in terms of the event alone: an interrupted, failed or dropped turn
      changes nothing; otherwise those stay who were watched, are not readable and not UNWATCHed, and
      a PID comes on only by a WATCH with room and a pidfd.  Nobody's descriptor changes. */
  lemma TurnMeans(d: Daemon, socket: int, e: Event, p: int)
    requires d.status == Running && Sound(d.watched, socket)
    ensures var w, now := d.watched, Turn(d, socket, e).watched;
            && (if !e.Ready? || e.connection.Dropped? then p in now <==> p in w
                else if p in w then p in now <==> w[p] as int !in e.readable && !Unwatches(e, p)
                else p in now <==> && e.connection.Command? && e.connection.cmd == CMD_WATCH && e.connection.pid == p
                                   && e.connection.opens && |w| < MAX_WATCHED_PIDS)
            && (p in w && p in now ==> now[p] == w[p])
  {
    if e.Ready? && !e.connection.Dropped? {
      DeathPassExact(d.watched, socket, e.connection, e.readable, p);
      ConnectionSound(d.watched, socket, e.connection);
      if e.connection.Command? {
        AckMeans(d.watched, socket, e.connection);
      }
    }
  }

  lemma TurnSound(d: Daemon, socket: int, e: Event)
    requires Sound(d.watched, socket)
    ensures Sound(Turn(d, socket, e).watched, socket)
  {
    if e.Ready? {
      ConnectionSound(d.watched, socket, e.connection);
    }
  }

  lemma {:induction false} AlwaysSound(socket: int, es: seq<Event>, n: nat)
    requires n <= |es|
    ensures Sound(After(socket, es, n).watched, socket)
  {
    if n > 0 {
      AlwaysSound(socket, es, n - 1);
      TurnSound(After(socket, es, n - 1), socket, es[n - 1]);
    }
  }

  /** A WATCH that is answered OK is still in place after the turn, unless the PID was already
      watched and its old descriptor was reported readable in the same poll. */
  lemma WatchAckKept(d: Daemon, socket: int, c: Connection, readable: set<int>, deletes: map<int, DeleteCalls>)
    requires d.status == Running && Sound(d.watched, socket)
    requires c.Command? && c.cmd == CMD_WATCH && Ack(d.watched, socket, c) == MonitorOk
    ensures c.pid in Turn(d, socket, Ready(c, readable, deletes)).watched <==>
              !(c.pid in d.watched && d.watched[c.pid] as int in readable)
  {
    DeathPassExact(d.watched, socket, c, readable, c.pid);
  }

  /** Such a WATCH is lost, for instance, when the second of two comes with the death of its PID. */
  lemma WatchAckLost() returns (socket: int, es: seq<Event>)
    ensures |es| == 2 && es[0].Ready? && es[1].Ready? && es[0].connection == es[1].connection == Command(CMD_WATCH, 7, true, 5)
    ensures Ack(After(socket, es, 1).watched, socket, es[1].connection) == MonitorOk
    ensures 7 in After(socket, es, 1).watched && 7 !in After(socket, es, 2).watched
  {
    var c := Command(CMD_WATCH, 7, true, 5);
    socket, es := 3, [Ready(c, {}, map[]), Ready(c, {5}, map[])];
    assert After(socket, es, 0) == Daemon(map[], Running);
    assert AfterConnection(map[], socket, c) == map[7 := 5];
    assert After(socket, es, 1).watched == map[7 := 5];
    assert After(socket, es, 1) == Daemon(map[7 := 5], Running);
    assert 7 !in Turn(Daemon(map[7 := 5], Running), socket, es[1]).watched by {
      WatchAckKept(Daemon(map[7 := 5], Running), socket, c, {5}, map[]);
    }
  }

  // ---- who is handed to `unregister_rate_limiter_by_pid` -----------------------------------

  /** Watched at poll time, reported readable and not removed by this turn's command. */
  ghost predicate DeadThisTurn(w: Watched, c: Connection, readable: set<int>, p: int) {
    p in w && w[p] as int in readable && !(c.Command? && c.cmd == CMD_UNWATCH && c.pid == p)
  }

  /** The PID of a WATCH for which no pidfd could be had. */
  ghost function FailedWatch(w: Watched, socket: int, c: Connection): seq<int> {
    if c.Command? && c.cmd == CMD_WATCH && Ack(w, socket, c) == MonitorPidfd then [c.pid] else []
  }

  /** The PIDs whose limits a turn removes: the dead, and the one that could not be watched. */
  ghost function GivenUp(w: Watched, socket: int, e: Event): set<int> {
    if !e.Ready? || e.connection.Dropped? then {}
    else (set p | p in w && DeadThisTurn(w, e.connection, e.readable, p))
         + (set p | p in FailedWatch(w, socket, e.connection))
  }

  ghost predicate GivesUp(socket: int, es: seq<Event>, i: nat, p: int)
    requires i < |es|
  {
    After(socket, es, i).status == Running && p in GivenUp(After(socket, es, i).watched, socket, es[i])
  }

  /** Everyone given up in the first `n` turns, as often as it happened. */
  ghost function GivenUpTo(socket: int, es: seq<Event>, n: nat): multiset<int>
    requires n <= |es|
  {
    if n == 0 then multiset{}
    else
      var d := After(socket, es, n - 1);
      GivenUpTo(socket, es, n - 1)
      + (if d.status == Running then multiset(GivenUp(d.watched, socket, es[n - 1])) else multiset{})
  }

  lemma {:induction false} GivenUpOnce(socket: int, es: seq<Event>, n: nat, i: nat, p: int)
    requires i < n <= |es| && GivesUp(socket, es, i, p)
    ensures p in GivenUpTo(socket, es, n)
  {
    if i < n - 1 {
      GivenUpOnce(socket, es, n - 1, i, p);
    }
  }

  function CallsFor(deletes: map<int, DeleteCalls>, pid: int): DeleteCalls {
    if pid in deletes then deletes[pid]
    else
      var links := LinkCalls(true, true, true);
      DeleteCalls(true, true, true, DetachCalls(true, links, links, true), true)
  }

  function DeletesOf(e: Event): map<int, DeleteCalls> { if e.Ready? then e.deletes else map[] }

  /** What giving up some PIDs does to the kernel: cgroups only go, limits of others are
      untouched, and a PID given up loses its cgroup when the calls that remove it succeed. */
  ghost predicate Buried(j: KernelState, k: KernelState, given: multiset<int>, deletes: map<int, DeleteCalls>) {
    && k.children <= j.children
    && (forall q :: q !in given ==> SamePid(j, k, q))
    && (forall p :: p in given && AllSucceed(CallsFor(deletes, p)) ==> !HasCgroup(k, p))
  }

  ghost predicate Released(socket: int, es: seq<Event>, i: nat, p: int)
    requires i < |es|
  {
    GivesUp(socket, es, i, p) && AllSucceed(CallsFor(DeletesOf(es[i]), p))
  }

  /** The same over the first `n` turns of a run. */
  ghost predicate BuriedBy(j: KernelState, k: KernelState, socket: int, es: seq<Event>, n: nat)
    requires n <= |es|
  {
    && k.children <= j.children
    && (forall q :: q !in GivenUpTo(socket, es, n) ==> SamePid(j, k, q))
    && (forall i, p :: 0 <= i < n && Released(socket, es, i, p) ==> !HasCgroup(k, p))
  }

  lemma BuriedTwice(i: KernelState, j: KernelState, k: KernelState, a: multiset<int>, b: multiset<int>, deletes: map<int, DeleteCalls>)
    requires Buried(i, j, a, deletes) && Buried(j, k, b, deletes)
    ensures Buried(i, k, a + b, deletes)
  {
    forall q | q !in a + b ensures SamePid(i, k, q) {
      assert q !in a && q !in b;
    }
  }

  lemma BuriedMore(j: KernelState, k: KernelState, k': KernelState, socket: int, es: seq<Event>, n: nat)
    requires n < |es| && After(socket, es, n).status == Running && BuriedBy(j, k, socket, es, n)
    requires Buried(k, k', multiset(GivenUp(After(socket, es, n).watched, socket, es[n])), DeletesOf(es[n]))
    ensures BuriedBy(j, k', socket, es, n + 1)
  {
    var given := GivenUp(After(socket, es, n).watched, socket, es[n]);
    forall q | q !in GivenUpTo(socket, es, n + 1) ensures SamePid(j, k', q) {
      assert q !in GivenUpTo(socket, es, n) && q !in multiset(given);
    }
    forall i, p | 0 <= i < n + 1 && Released(socket, es, i, p) ensures !HasCgroup(k', p) {
      if i == n {
        assert p in multiset(given);
      }
    }
  }

  /** Once the loop is left, later events change nothing. */
  lemma {:induction false} OverAndOut(socket: int, es: seq<Event>, n: nat, m: nat)
    requires n <= m <= |es| && (After(socket, es, n).status != Running || n == m)
    ensures After(socket, es, m) == After(socket, es, n)
    ensures GivenUpTo(socket, es, m) == GivenUpTo(socket, es, n)
    decreases m - n
  {
    if n < m {
      OverAndOut(socket, es, n, m - 1);
    }
  }

  lemma BuriedToTheEnd(j: KernelState, k: KernelState, socket: int, es: seq<Event>, n: nat)
    requires n <= |es| && (After(socket, es, n).status != Running || n == |es|) && BuriedBy(j, k, socket, es, n)
    ensures BuriedBy(j, k, socket, es, |es|)
  {
    OverAndOut(socket, es, n, |es|);
    forall i, p | 0 <= i < |es| && Released(socket, es, i, p) ensures !HasCgroup(k, p) {
      if i >= n {
        OverAndOut(socket, es, n, i);
      }
    }
  }

  // ---- no abandoned watch ---------------------------------------------------------------

  ghost predicate TakenOff(socket: int, es: seq<Event>, i: nat, p: int)
    requires i < |es|
  {
    p in After(socket, es, i).watched && p !in After(socket, es, i + 1).watched
  }

  /** Turn `i` takes `p` off the list: by UNWATCH, or by unregistering it. */
  ghost predicate LetGo(socket: int, es: seq<Event>, i: nat, p: int)
    requires i < |es|
  {
    TakenOff(socket, es, i, p) && (Unwatches(es[i], p) || GivesUp(socket, es, i, p))
  }

  lemma TurnTakesOff(d: Daemon, socket: int, e: Event, p: int)
    requires Sound(d.watched, socket) && p in d.watched && p !in Turn(d, socket, e).watched
    ensures d.status == Running && (Unwatches(e, p) || p in GivenUp(d.watched, socket, e))
  {
    DeathPassExact(d.watched, socket, e.connection, e.readable, p);
  }

  /** A PID on the list before turn `i` and off it after turn `n` was let go in between. */
  lemma {:induction false} OffTheListWasLetGo(socket: int, es: seq<Event>, i: nat, n: nat, p: int)
    requires i <= n <= |es| && p in After(socket, es, i).watched && p !in After(socket, es, n).watched
    ensures exists k :: i <= k < n && LetGo(socket, es, k, p)
    decreases n - i
  {
    if p !in After(socket, es, n - 1).watched {
      OffTheListWasLetGo(socket, es, i, n - 1, p);
    } else {
      AlwaysSound(socket, es, n - 1);
      TurnTakesOff(After(socket, es, n - 1), socket, es[n - 1], p);
      assert LetGo(socket, es, n - 1, p);
    }
  }

  /** So everyone who left the list was taken off it by an UNWATCH or is among those given up. */
  lemma AccountedFor(socket: int, es: seq<Event>, i: nat, n: nat, p: int)
    requires i <= n <= |es| && p in After(socket, es, i).watched && p !in After(socket, es, n).watched
    ensures || p in GivenUpTo(socket, es, n)
            || exists k :: i <= k < n && TakenOff(socket, es, k, p) && Unwatches(es[k], p)
  {
    OffTheListWasLetGo(socket, es, i, n, p);
    var k :| i <= k < n && LetGo(socket, es, k, p);
    if GivesUp(socket, es, k, p) {
      GivenUpOnce(socket, es, n, k, p);
    }
  }

  lemma {:induction false} EmptyMeansEmpty(socket: int, es: seq<Event>, n: nat)
    requires n <= |es|
    ensures After(socket, es, n).status == Empty ==> After(socket, es, n).watched == map[]
    ensures After(socket, es, n).status == Stopped ==>
              exists k :: 0 <= k < n && es[k].Ready? && es[k].connection.Command? && es[k].connection.cmd == CMD_STOP
    ensures After(socket, es, n).status == PollError ==> exists k :: 0 <= k < n && es[k].PollFailed?
  {
    if n > 0 {
      EmptyMeansEmpty(socket, es, n - 1);
    }
  }

  /** In every run with no STOP and no poll error, if the loop has exited then every PID that was
      ever on the list has since been taken off it, by an UNWATCH or by being unregistered. */
  lemma NoAbandonedWatch(socket: int, es: seq<Event>, i: nat, n: nat, p: int)
    requires i <= n <= |es| && After(socket, es, n).status != Running
    requires forall k :: 0 <= k < n ==> !es[k].PollFailed?
    requires forall k :: 0 <= k < n && es[k].Ready? && es[k].connection.Command? ==> es[k].connection.cmd != CMD_STOP
    requires p in After(socket, es, i).watched
    ensures exists k :: i <= k < n && LetGo(socket, es, k, p)
  {
    EmptyMeansEmpty(socket, es, n);
    OffTheListWasLetGo(socket, es, i, n, p);
  }

  // ---- the descriptor ledger ------------------------------------------------------------

  datatype FdEvent = Opened(fd: int) | Closed(fd: int)

  function Step(open: set<int>, e: FdEvent): set<int> {
    if e.Opened? then open + {e.fd} else open - {e.fd}
  }

  /** No number is opened while open, none closed while not open. */
  predicate StepOk(open: set<int>, e: FdEvent) { e.Opened? <==> e.fd !in open }

  function OpenAfter(log: seq<FdEvent>): set<int> {
    if log == [] then {} else Step(OpenAfter(log[..|log| - 1]), log[|log| - 1])
  }

  predicate Proper(log: seq<FdEvent>) {
    log == [] || (Proper(log[..|log| - 1]) && StepOk(OpenAfter(log[..|log| - 1]), log[|log| - 1]))
  }

  lemma LogOne(log: seq<FdEvent>, e: FdEvent)
    ensures OpenAfter(log + [e]) == Step(OpenAfter(log), e)
    ensures Proper(log + [e]) <==> Proper(log) && StepOk(OpenAfter(log), e)
  {
    assert (log + [e])[..|log + [e]| - 1] == log;
  }

  function Occurrences(log: seq<FdEvent>, e: FdEvent): nat {
    if log == [] then 0 else Occurrences(log[..|log| - 1], e) + (if log[|log| - 1] == e then 1 else 0)
  }

  /** Every opening is matched by exactly one closing, but for what is still open. */
  lemma {:induction false} LedgerBalances(log: seq<FdEvent>, fd: int)
    requires Proper(log)
    ensures Occurrences(log, Opened(fd)) == Occurrences(log, Closed(fd)) + (if fd in OpenAfter(log) then 1 else 0)
  {
    if log != [] {
      LedgerBalances(log[..|log| - 1], fd);
    }
  }
}
