/** The death-watch daemon: its table of 1024 slots, the commands that change it, the event
    loop, and the death pass that walks the table while its callback clears slots of it. */
module Monitor {
  import opened Kernel
  import opened RateLimit
  import opened Watch

  datatype Entry = Entry(pid: int, pidfd: int, active: bool)

  const CLEARED := Entry(0, -1, false)

  predicate Holds(e: Entry, pid: int) { e.active && e.pid == pid }

  // ---- the table as a value -------------------------------------------------------------

  /** `pos` gives each watched PID's slot; active slots and watched PIDs correspond. */
  ghost predicate Indexed(t: seq<Entry>, pos: map<int, nat>) {
    && (forall i :: 0 <= i < |t| && t[i].active ==> t[i].pid in pos && pos[t[i].pid] == i && t[i].pidfd >= 0)
    && (forall p :: p in pos ==> pos[p] < |t| && Holds(t[pos[p]], p))
  }

  ghost function WatchedIn(t: seq<Entry>, pos: map<int, nat>): Watched
    requires Indexed(t, pos)
  {
    map p | p in pos :: t[pos[p]].pidfd as nat
  }

  ghost function ActiveSlots(t: seq<Entry>): set<nat> { set i: nat | i < |t| && t[i].active }

  ghost predicate Consistent(t: seq<Entry>, pos: map<int, nat>, count: int, ledger: seq<FdEvent>, socket: int) {
    && |t| == MAX_WATCHED_PIDS && Indexed(t, pos) && Sound(WatchedIn(t, pos), socket)
    && count == |ActiveSlots(t)| == |WatchedIn(t, pos)|
    && Proper(ledger) && OpenAfter(ledger) == Fds(WatchedIn(t, pos))
  }

  lemma WithoutOne(w: Watched, pid: int)
    requires pid in w && Distinct(w)
    ensures |w - {pid}| == |w| - 1 && Distinct(w - {pid}) && Fds(w - {pid}) == Fds(w) - {w[pid] as int}
  {
    assert (w - {pid}).Keys == w.Keys - {pid};
    forall fd | fd in Fds(w) - {w[pid] as int} ensures fd in Fds(w - {pid}) {
      var p :| p in w && w[p] as int == fd;
      assert p in w - {pid};
    }
  }

  lemma WithOne(w: Watched, pid: int, fd: nat)
    requires pid !in w
    ensures |w[pid := fd]| == |w| + 1 && Fds(w[pid := fd]) == Fds(w) + {fd as int}
  {
    var v := w[pid := fd];
    forall f | f in Fds(w) ensures f in Fds(v) {
      var p :| p in w && w[p] as int == f;
      assert p in v && v[p] == w[p];
    }
    assert v[pid] == fd;
  }

  lemma StaysSound(w: Watched, socket: int, pid: int, fd: nat)
    requires Sound(w, socket) && pid !in w && fd as int !in Fds(w) + {socket}
    ensures Sound(w[pid := fd], socket)
  {
    assert forall p :: p in w ==> w[p] as int in Fds(w);
    WithOne(w, pid, fd);
  }

  lemma ClearSlot(t: seq<Entry>, pos: map<int, nat>, pid: int)
    requires Indexed(t, pos) && pid in pos
    ensures var t' := t[pos[pid] := CLEARED];
            Indexed(t', pos - {pid}) && WatchedIn(t', pos - {pid}) == WatchedIn(t, pos) - {pid}
            && |ActiveSlots(t')| == |ActiveSlots(t)| - 1
            && forall k :: 0 <= k < |t| ==> t'[k] == if Holds(t[k], pid) then CLEARED else t[k]
  {
    var t' := t[pos[pid] := CLEARED];
    assert ActiveSlots(t') == ActiveSlots(t) - {pos[pid]};
    forall p | p in pos && p != pid ensures t'[pos[p]] == t[pos[p]] {
      assert Holds(t[pos[p]], p) && Holds(t[pos[pid]], pid);
    }
    assert WatchedIn(t', pos - {pid}) == WatchedIn(t, pos) - {pid};
  }

  lemma Unwatch(t: seq<Entry>, pos: map<int, nat>, count: int, ledger: seq<FdEvent>, socket: int, pid: int)
    requires Consistent(t, pos, count, ledger, socket) && pid in pos
    ensures Consistent(t[pos[pid] := CLEARED], pos - {pid}, count - 1, ledger + [Closed(t[pos[pid]].pidfd)], socket)
  {
    ClearSlot(t, pos, pid);
    var w := WatchedIn(t, pos);
    assert w[pid] as int == t[pos[pid]].pidfd;
    WithoutOne(w, pid);
    LogOne(ledger, Closed(t[pos[pid]].pidfd));
  }

  lemma FillSlot(t: seq<Entry>, pos: map<int, nat>, slot: nat, pid: int, fd: nat)
    requires Indexed(t, pos) && pid !in pos && slot < |t| && !t[slot].active
    ensures var t' := t[slot := Entry(pid, fd, true)];
            Indexed(t', pos[pid := slot]) && WatchedIn(t', pos[pid := slot]) == WatchedIn(t, pos)[pid := fd]
            && |ActiveSlots(t')| == |ActiveSlots(t)| + 1
  {
    var t' := t[slot := Entry(pid, fd, true)];
    assert ActiveSlots(t') == ActiveSlots(t) + {slot};
    forall p | p in pos ensures t'[pos[p]] == t[pos[p]] {
      assert Holds(t[pos[p]], p);
    }
    assert WatchedIn(t', pos[pid := slot]) == WatchedIn(t, pos)[pid := fd];
  }

  lemma Enlist(t: seq<Entry>, pos: map<int, nat>, count: int, ledger: seq<FdEvent>, socket: int, slot: nat, pid: int, fd: nat)
    requires Consistent(t, pos, count, ledger, socket)
    requires pid !in pos && slot < |t| && !t[slot].active && fd as int !in Fds(WatchedIn(t, pos)) + {socket}
    ensures Consistent(t[slot := Entry(pid, fd, true)], pos[pid := slot], count + 1, ledger + [Opened(fd)], socket)
  {
    FillSlot(t, pos, slot, pid, fd);
    WithOne(WatchedIn(t, pos), pid, fd);
    StaysSound(WatchedIn(t, pos), socket, pid, fd);
    LogOne(ledger, Opened(fd));
  }

  lemma ActiveNext(t: seq<Entry>, i: nat)
    requires i < |t|
    ensures |ActiveSlots(t[..i + 1])| == |ActiveSlots(t[..i])| + if t[i].active then 1 else 0
  {
    assert ActiveSlots(t[..i + 1]) == ActiveSlots(t[..i]) + if t[i].active then {i} else {};
  }

  lemma {:induction false} FullTable(t: seq<Entry>)
    ensures |ActiveSlots(t)| <= |t|
    ensures |ActiveSlots(t)| == |t| <==> forall i :: 0 <= i < |t| ==> t[i].active
  {
    if t != [] {
      var n := |t| - 1;
      FullTable(t[..n]);
      assert ActiveSlots(t) == ActiveSlots(t[..n]) + (if t[n].active then {n} else {});
      assert forall i :: 0 <= i < n ==> t[..n][i] == t[i];
    } else {
      assert ActiveSlots(t) == {};
    }
  }

  // ---- the daemon -----------------------------------------------------------------------

  class Monitor {
    const slots: array<Entry>
    var watchedCount: int
    const socket: nat
    const limiter: RateLimiter
    var ledger: seq<FdEvent>
    /** PIDs handed to `unregister_rate_limiter_by_pid`, in order. */
    var unregistered: seq<int>
    ghost var pos: map<int, nat>

    ghost predicate Valid()
      reads this, slots, limiter
    {
      Consistent(slots[..], pos, watchedCount, ledger, socket) && Inv(limiter.kernel)
    }

    ghost function Watched(): Watched
      reads this, slots
      requires Indexed(slots[..], pos)
    {
      WatchedIn(slots[..], pos)
    }

    constructor (limiter: RateLimiter, socket: nat)
      requires Inv(limiter.kernel)
      ensures Valid() && Watched() == map[] && fresh(slots) && ledger == [] && unregistered == []
      ensures this.limiter == limiter && this.socket == socket
    {
      this.limiter, this.socket := limiter, socket;
      slots := new Entry[MAX_WATCHED_PIDS](_ => CLEARED);
      watchedCount, ledger, unregistered, pos := 0, [], [], map[];
      new;
      assert ActiveSlots(slots[..]) == {};
    }

    method FindPidSlot(pid: int) returns (slot: int)
      requires Indexed(slots[..], pos)
      ensures slot == if pid in pos then pos[pid] else -1
    {
      var i := 0;
      while i < slots.Length
        invariant 0 <= i <= slots.Length
        invariant pid in pos ==> i <= pos[pid]
      {
        assert slots[..][i] == slots[i];
        if slots[i].active && slots[i].pid == pid {
          return i;
        }
        i := i + 1;
      }
      return -1;
    }

    method FindFreeSlot() returns (slot: int)
      requires Valid()
      ensures slot == -1 <==> |Watched()| >= MAX_WATCHED_PIDS
      ensures slot != -1 ==> 0 <= slot < slots.Length && !slots[slot].active
    {
      FullTable(slots[..]);
      slot := -1;
      var i := 0;
      while i < slots.Length
        invariant 0 <= i <= slots.Length
        invariant forall k :: 0 <= k < i ==> slots[k].active
      {
        if !slots[i].active {
          assert !slots[..][i].active;
          return i;
        }
        i := i + 1;
      }
      assert forall k :: 0 <= k < |slots[..]| ==> slots[..][k].active;
    }

    /** `add_pid_to_watch`.  Without a pidfd the PID's limit is removed at once. */
    method AddPidToWatch(pid: int, opens: bool, hint: nat, c: DeleteCalls) returns (code: MonitorCode)
      requires Valid()
      modifies this, slots, limiter
      ensures Valid()
      ensures (Watched(), code) == Add(old(Watched()), socket, pid, opens, hint)
      ensures unregistered == if code == MonitorPidfd then old(unregistered) + [pid] else old(unregistered)
      ensures code != MonitorPidfd ==> limiter.kernel == old(limiter.kernel)
      ensures code == MonitorPidfd ==> Deleted(old(limiter.kernel), limiter.kernel, pid, c)
      decreases 2
    {
      var slot := FindPidSlot(pid);
      if slot >= 0 {
        return MonitorOk;
      }
      slot := FindFreeSlot();
      if slot < 0 {
        return MonitorSlots;
      }
      if !opens {
        var _ := UnregisterRateLimiterByPid(pid, c);
        return MonitorPidfd;
      }
      var pidfd := FreshFd(OpenAfter(ledger) + {socket as int}, hint);
      ghost var before := ledger;
      ledger := ledger + [Opened(pidfd)];
      TakeSlot(slot, pid, pidfd, before);
      return MonitorOk;
    }

    /** The assignments that make a slot active, for a descriptor just opened. */
    method TakeSlot(slot: nat, pid: int, pidfd: nat, ghost before: seq<FdEvent>)
      requires Consistent(slots[..], pos, watchedCount, before, socket) && Inv(limiter.kernel)
      requires ledger == before + [Opened(pidfd)] && pidfd as int !in Fds(Watched()) + {socket as int}
      requires slot < slots.Length && !slots[slot].active && pid !in pos
      modifies this, slots
      ensures Valid() && Watched() == old(Watched())[pid := pidfd]
      ensures unregistered == old(unregistered)
    {
      ghost var t := slots[..];
      Enlist(t, pos, watchedCount, before, socket, slot, pid, pidfd);
      FillSlot(t, pos, slot, pid, pidfd);
      slots[slot] := Entry(pid, pidfd, true);
      watchedCount := watchedCount + 1;
      pos := pos[pid := slot];
      assert slots[..] == t[slot := Entry(pid, pidfd, true)];
    }

    /** `remove_pid_from_watch`. */
    method RemovePidFromWatch(pid: int) returns (code: MonitorCode)
      requires Valid()
      modifies this, slots
      ensures Valid()
      ensures (Watched(), code) == Remove(old(Watched()), pid)
      ensures CalledBack(old(slots[..]), slots[..], pid)
      ensures unregistered == old(unregistered)
    {
      var slot := FindPidSlot(pid);
      if slot < 0 {
        return MonitorNotFound;
      }
      ghost var before := ledger;
      ledger := ledger + [Closed(slots[slot].pidfd)];
      LeaveSlot(slot, pid, before);
      return MonitorOk;
    }

    /** The assignments that clear a slot, for a descriptor just closed. */
    method LeaveSlot(slot: nat, pid: int, ghost before: seq<FdEvent>)
      requires Consistent(slots[..], pos, watchedCount, before, socket) && Inv(limiter.kernel)
      requires pid in pos && pos[pid] == slot < slots.Length && ledger == before + [Closed(slots[slot].pidfd)]
      modifies this, slots
      ensures Valid() && Watched() == old(Watched()) - {pid}
      ensures CalledBack(old(slots[..]), slots[..], pid) && unregistered == old(unregistered)
    {
      ghost var t := slots[..];
      Unwatch(t, pos, watchedCount, before, socket, pid);
      ClearSlot(t, pos, pid);
      slots[slot] := CLEARED;
      watchedCount := watchedCount - 1;
      pos := pos - {pid};
      assert slots[..] == t[slot := CLEARED];
    }

    /** `send_command` inside the daemon goes straight to the table. */
    method SendCommand(cmd: int, pid: int, opens: bool, hint: nat, c: DeleteCalls) returns (code: MonitorCode)
      requires Valid()
      modifies this, slots, limiter
      ensures Valid()
      ensures cmd == CMD_WATCH ==> (Watched(), code) == Add(old(Watched()), socket, pid, opens, hint)
      ensures cmd == CMD_UNWATCH ==>
                && (Watched(), code) == Remove(old(Watched()), pid)
                && CalledBack(old(slots[..]), slots[..], pid)
                && unregistered == old(unregistered) && limiter.kernel == old(limiter.kernel)
      ensures cmd != CMD_WATCH && cmd != CMD_UNWATCH ==> Watched() == old(Watched()) && code == MonitorNotFound
      decreases if cmd == CMD_WATCH then 3 else 0
    {
      if cmd == CMD_WATCH {
        code := AddPidToWatch(pid, opens, hint, c);
      } else if cmd == CMD_UNWATCH {
        code := RemovePidFromWatch(pid);
      } else {
        code := MonitorNotFound;
      }
    }

    /** `unregister_rate_limiter_by_pid` inside the daemon: the unwatch calls back into the table
        this may be in the middle of walking, then the cgroup is deleted. */
    method UnregisterRateLimiterByPid(pid: int, c: DeleteCalls) returns (code: Code)
      requires Valid()
      modifies this, slots, limiter
      ensures Valid()
      ensures Watched() == Remove(old(Watched()), pid).0
      ensures CalledBack(old(slots[..]), slots[..], pid)
      ensures unregistered == old(unregistered) + [pid]
      ensures Deleted(old(limiter.kernel), limiter.kernel, pid, c)
      decreases 1
    {
      var _ := SendCommand(CMD_UNWATCH, pid, false, 0, c);
      unregistered := unregistered + [pid];
      code := limiter.DeletePidCgroup(pid, c);
    }

    /** The poll array: the socket, then the pidfds of the active slots; it never overflows. */
    method BuildPollSet(fds: array<int>) returns (nfds: int)
      requires Valid() && fds.Length == MAX_WATCHED_PIDS + 2
      modifies fds
      ensures nfds == watchedCount + 1 <= MAX_WATCHED_PIDS + 1 && fds[0] == socket
      ensures forall fd :: fd in fds[1..nfds] <==> fd in Fds(Watched())
    {
      fds[0] := socket;
      nfds := 1;
      var i := 0;
      while i < slots.Length
        invariant 0 <= i <= slots.Length && 1 <= nfds <= i + 1 && fds[0] == socket
        invariant nfds == 1 + |ActiveSlots(slots[..i])|
        invariant forall fd :: fd in fds[1..nfds] ==> fd in Fds(Watched())
        invariant forall k :: 0 <= k < i && slots[k].active ==> slots[k].pidfd in fds[1..nfds]
      {
        ActiveNext(slots[..], i);
        assert slots[..][..i] == slots[..i] && slots[..][..i + 1] == slots[..i + 1];
        if slots[i].active {
          assert slots[..][i] == slots[i];
          assert Watched()[slots[i].pid] == slots[i].pidfd as nat;
          ghost var sofar := fds[1..nfds];
          fds[nfds] := slots[i].pidfd;
          nfds := nfds + 1;
          assert fds[1..nfds] == sofar + [slots[i].pidfd];
        }
        i := i + 1;
      }
      assert slots[..i] == slots[..];
      FullTable(slots[..]);
      forall fd | fd in Fds(Watched()) ensures fd in fds[1..nfds] {
        var p :| p in Watched() && Watched()[p] as int == fd;
        assert slots[pos[p]].pidfd == fd && slots[pos[p]].active;
      }
    }

    /** The inner loop of the death pass for slot `i`; `fds` is the filled part of the poll array. */
    method VisitSlot(i: nat, fds: seq<int>, readable: set<int>, deletes: map<int, DeleteCalls>)
      requires Valid() && i < slots.Length && slots[i].active && |fds| >= 1
      modifies this, slots, limiter
      ensures Valid()
      ensures !old(Dying(slots[i], HotSet(fds, readable))) ==>
                unchanged(this) && unchanged(slots) && unchanged(limiter)
      ensures old(Dying(slots[i], HotSet(fds, readable))) ==>
                var pid := old(slots[i].pid);
                && CalledBack(old(slots[..]), slots[..], pid) && Watched() == Remove(old(Watched()), pid).0
                && unregistered == old(unregistered) + [pid]
                && Deleted(old(limiter.kernel), limiter.kernel, pid, CallsFor(deletes, pid))
    {
      var j := 1;
      while j < |fds|
        invariant 1 <= j <= |fds|
        invariant unchanged(this) && unchanged(slots) && unchanged(limiter)
        invariant forall k :: 1 <= k < j ==> !(fds[k] == slots[i].pidfd && fds[k] in readable)
      {
        if fds[j] == slots[i].pidfd && fds[j] in readable {
          var pid := slots[i].pid;
          assert fds[1..][j - 1] in HotSet(fds, readable);
          var _ := UnregisterRateLimiterByPid(pid, CallsFor(deletes, pid));
          return;
        }
        j := j + 1;
      }
    }

    /** The pass has dealt with the first `i` slots of the table it began with. */
    ghost predicate PassAt(pass: Pass, i: nat)
      requires Indexed(pass.t, pass.pos) && i <= |pass.t|
      reads this, slots, limiter
    {
      Valid() && PassedTo(pass, i, slots[..], Watched(), unregistered, limiter.kernel)
    }

    method DeathStep(i: nat, fds: seq<int>, readable: set<int>, deletes: map<int, DeleteCalls>, ghost pass: Pass)
      requires |fds| >= 1 && pass.hot == HotSet(fds, readable) && pass.deletes == deletes
      requires Indexed(pass.t, pass.pos) && i < |pass.t| && PassAt(pass, i)
      modifies this, slots, limiter
      ensures PassAt(pass, i + 1)
    {
      assert slots[..][i] == slots[i] == pass.t[i];
      if !Dying(slots[i], pass.hot) {
        PassSkips(pass, i, slots[..], Watched(), unregistered, limiter.kernel);
      }
      if !slots[i].active {
        return;
      }
      ghost var before, w, u, k := slots[..], Watched(), unregistered, limiter.kernel;
      VisitSlot(i, fds, readable, deletes);
      if Dying(pass.t[i], pass.hot) {
        PassBuries(pass, i, before, w, u, k, slots[..], limiter.kernel);
      }
    }

    /** The death pass.  It walks the table while the callback clears slots of that same table;
        every slot it comes to is as it was when the pass began, and the ones it clears are
        exactly those whose descriptor was polled and reported readable. */
    method DeathPass(fds: seq<int>, readable: set<int>, deletes: map<int, DeleteCalls>)
      requires Valid() && |fds| >= 1
      modifies this, slots, limiter
      ensures PassAt(Pass(old(slots[..]), old(pos), HotSet(fds, readable), old(unregistered), old(limiter.kernel), deletes),
                     MAX_WATCHED_PIDS)
      ensures Watched() == Survivors(old(Watched()), HotSet(fds, readable))
    {
      ghost var pass := Pass(slots[..], pos, HotSet(fds, readable), unregistered, limiter.kernel, deletes);
      PassBegins(pass);
      WalkTable(fds, readable, deletes, pass);
      PassEnds(pass);
    }

    method WalkTable(fds: seq<int>, readable: set<int>, deletes: map<int, DeleteCalls>, ghost pass: Pass)
      requires |fds| >= 1 && pass.hot == HotSet(fds, readable) && pass.deletes == deletes
      requires Indexed(pass.t, pass.pos) && |pass.t| == MAX_WATCHED_PIDS && PassAt(pass, 0)
      modifies this, slots, limiter
      ensures PassAt(pass, MAX_WATCHED_PIDS)
    {
      var i := 0;
      while i < MAX_WATCHED_PIDS
        invariant 0 <= i <= MAX_WATCHED_PIDS && PassAt(pass, i)
      {
        DeathStep(i, fds, readable, deletes, pass);
        i := i + 1;
      }
    }

    lemma PassEnds(pass: Pass)
      requires Indexed(pass.t, pass.pos) && PassAt(pass, |pass.t|)
      ensures Watched() == Survivors(WatchedIn(pass.t, pass.pos), pass.hot)
    {
      LeftAll(pass.t, pass.pos, pass.hot);
    }

    lemma PassBegins(pass: Pass)
      requires Valid() && pass.t == slots[..] && pass.pos == pos && pass.u == unregistered && pass.k == limiter.kernel
      ensures PassAt(pass, 0)
    {
      LeftStart(pass.t, pass.pos, pass.hot);
      NoneYet(pass.t, pass.hot, pass.k, pass.u, pass.deletes);
    }

    /** The command of an accepted connection. */
    method Serve(c: Connection, deletes: map<int, DeleteCalls>) returns (result: MonitorCode, stop: bool)
      requires Valid() && c.Command?
      modifies this, slots, limiter
      ensures Valid()
      ensures Watched() == AfterConnection(old(Watched()), socket, c) && result == Ack(old(Watched()), socket, c)
      ensures stop <==> c.cmd == CMD_STOP
      ensures unregistered == old(unregistered) + FailedWatch(old(Watched()), socket, c)
      ensures if FailedWatch(old(Watched()), socket, c) == [] then limiter.kernel == old(limiter.kernel)
              else Deleted(old(limiter.kernel), limiter.kernel, c.pid, CallsFor(deletes, c.pid))
    {
      result, stop := MonitorNotFound, false;
      if c.cmd == CMD_WATCH {
        result := AddPidToWatch(c.pid, c.opens, c.hint, CallsFor(deletes, c.pid));
      } else if c.cmd == CMD_UNWATCH {
        result := RemovePidFromWatch(c.pid);
      } else if c.cmd == CMD_STOP {
        result, stop := MonitorOk, true;
      }
    }

    /** The first half of what follows a poll: the command, if there is one. */
    method Connected(c: Connection, deletes: map<int, DeleteCalls>) returns (stop: bool)
      requires Valid() && !c.Dropped?
      modifies this, slots, limiter
      ensures Valid() && Watched() == AfterConnection(old(Watched()), socket, c)
      ensures stop <==> c.Command? && c.cmd == CMD_STOP
      ensures unregistered == old(unregistered) + FailedWatch(old(Watched()), socket, c)
      ensures Buried(old(limiter.kernel), limiter.kernel, multiset(FailedWatch(old(Watched()), socket, c)), deletes)
    {
      stop := false;
      if c.Command? {
        var reply;
        reply, stop := Serve(c, deletes);
        if FailedWatch(old(Watched()), socket, c) != [] {
          BuriedOne(old(limiter.kernel), old(limiter.kernel), limiter.kernel, [], c.pid, deletes);
        }
      }
    }

    /** After a poll: the command, if any, then the death pass.  Handed to
        `unregister_rate_limiter_by_pid` are the PID whose watch failed and then, once each,
        exactly the PIDs watched at poll time, reported readable and not removed by the command.
        Their cgroups go when the calls succeed; no other PID's limits change. */
    method AfterPoll(c: Connection, polled: seq<int>, readable: set<int>, deletes: map<int, DeleteCalls>)
      returns (stop: bool, ghost dead: seq<int>)
      requires Valid() && !c.Dropped? && |polled| >= 1
      requires forall fd :: fd in polled[1..] <==> fd in Fds(Watched())
      modifies this, slots, limiter
      ensures Valid()
      ensures Watched() == Survivors(AfterConnection(old(Watched()), socket, c), readable * Fds(old(Watched())))
      ensures stop <==> c.Command? && c.cmd == CMD_STOP
      ensures unregistered == old(unregistered) + FailedWatch(old(Watched()), socket, c) + dead
      ensures DeadList(dead, old(Watched()), c, readable)
      ensures Buried(old(limiter.kernel), limiter.kernel, multiset(FailedWatch(old(Watched()), socket, c)) + multiset(dead), deletes)
    {
      ghost var w, k0 := Watched(), limiter.kernel;
      HotIsReadable(polled, readable, w);
      stop := Connected(c, deletes);
      ghost var k1 := limiter.kernel;
      DeadExactly(slots[..], pos, w, socket, c, readable);
      dead := Dead(slots[..], readable * Fds(w), MAX_WATCHED_PIDS);
      DeathPass(polled, readable, deletes);
      BuriedTwice(k0, k1, limiter.kernel, multiset(FailedWatch(w, socket, c)), multiset(dead), deletes);
    }

    /** What one event does to the table, the list of those unregistered, and the kernel. */
    ghost predicate Moved(w: Watched, u: multiset<int>, k: KernelState, e: Event, status: Status)
      reads this, slots, limiter
    {
      && Valid() && Daemon(Watched(), status) == Watch.Turn(Daemon(w, Running), socket, e)
      && multiset(unregistered) == u + multiset(GivenUp(w, socket, e))
      && Buried(k, limiter.kernel, multiset(GivenUp(w, socket, e)), DeletesOf(e))
    }

    /** One turn of the event loop moves the table as `Watch.Turn` says, and unregisters exactly
        the PIDs `GivenUp` names. */
    method Turn(e: Event, fds: array<int>) returns (status: Status)
      requires Valid() && fds.Length == MAX_WATCHED_PIDS + 2
      modifies this, slots, limiter, fds
      ensures Moved(old(Watched()), old(multiset(unregistered)), old(limiter.kernel), e, status)
      ensures status != Running <==> EndsLoop(e, Watched())
      ensures (status == PollError <==> e.PollFailed?) && (status == Empty <==> watchedCount == 0 && EndsLoop(e, Watched()) && !e.PollFailed?)
    {
      LeavesIff(Daemon(Watched(), Running), socket, e);
      var nfds := BuildPollSet(fds);
      var polled := fds[..nfds];
      assert polled[1..] == fds[1..nfds];
      if e.Interrupted? || (e.Ready? && e.connection.Dropped?) {
        Unmoved(e);
        return Running;
      }
      if e.PollFailed? {
        return PollError;
      }
      status := Handle(e, polled);
    }

    lemma Unmoved(e: Event)
      requires Valid() && (e.Interrupted? || (e.Ready? && e.connection.Dropped?))
      ensures Moved(Watched(), multiset(unregistered), limiter.kernel, e, Running)
    {}

    /** What a turn does once poll has returned and any connection has brought a command. */
    method Handle(e: Event, polled: seq<int>) returns (status: Status)
      requires Valid() && e.Ready? && !e.connection.Dropped? && |polled| >= 1
      requires forall fd :: fd in polled[1..] <==> fd in Fds(Watched())
      modifies this, slots, limiter
      ensures Moved(old(Watched()), old(multiset(unregistered)), old(limiter.kernel), e, status)
    {
      ghost var w := Watched();
      var stop, dead := AfterPoll(e.connection, polled, e.readable, e.deletes);
      AllGivenUp(w, socket, e, dead);
      status := if watchedCount == 0 then Empty else if stop then Stopped else Running;
    }

    /** `monitor_run` over the events poll reports: the loop, then the closing of what is left.
        Whoever was on the list and no longer is was taken off it by an UNWATCH or unregistered;
        those unregistered are exactly those given up, as often; a PID given up has no cgroup at
        the end if the calls that remove it succeeded, and no other PID's limits change. */
    method Run(events: seq<Event>) returns (status: Status)
      requires Valid() && Watched() == map[]
      modifies this, slots, limiter
      ensures Proper(ledger)
      ensures status == After(socket, events, |events|).status
      ensures status == Running <==>
                forall k :: 0 <= k < |events| ==> !EndsLoop(events[k], After(socket, events, k + 1).watched)
      ensures status == Running ==> Valid() && Watched() == After(socket, events, |events|).watched
      ensures status != Running ==> OpenAfter(ledger) == {}
      ensures multiset(unregistered) == old(multiset(unregistered)) + GivenUpTo(socket, events, |events|)
      ensures BuriedBy(old(limiter.kernel), limiter.kernel, socket, events, |events|)
      ensures forall i, p :: OffTheList(socket, events, i, p) ==> p in unregistered || UnwatchedSince(socket, events, i, p)
    {
      var fds := new int[MAX_WATCHED_PIDS + 2];
      ghost var u, k := multiset(unregistered), limiter.kernel;
      var n;
      status, n := EventLoop(events, fds);
      LoopOver(events, n, status, u, k);
      RunningIff(socket, events, |events|);
      AllAccounted(socket, events, u);
      if status != Running {
        CloseAll();
      }
    }

    lemma LoopOver(events: seq<Event>, n: nat, status: Status, u: multiset<int>, k: KernelState)
      requires n <= |events| && Reached(events, n, status, u, k) && (status == Running ==> n == |events|)
      ensures Reached(events, |events|, status, u, k)
    {
      OverAndOut(socket, events, n, |events|);
      BuriedToTheEnd(k, limiter.kernel, socket, events, n);
    }

    lemma Started(events: seq<Event>)
      requires Valid() && Watched() == map[]
      ensures Reached(events, 0, Running, multiset(unregistered), limiter.kernel)
    {}

    /** The daemon has reached the state `Watch.After` gives for the first `n` events, from a list
        `u` of those unregistered and a kernel `k`. */
    ghost predicate Reached(events: seq<Event>, n: nat, status: Status, u: multiset<int>, k: KernelState)
      requires n <= |events|
      reads this, slots, limiter
    {
      && Valid() && Daemon(Watched(), status) == After(socket, events, n)
      && multiset(unregistered) == u + GivenUpTo(socket, events, n)
      && BuriedBy(k, limiter.kernel, socket, events, n)
    }

    method NextEvent(events: seq<Event>, i: nat, fds: array<int>, ghost u: multiset<int>, ghost k: KernelState) returns (status: Status)
      requires i < |events| && Reached(events, i, Running, u, k) && fds.Length == MAX_WATCHED_PIDS + 2
      modifies this, slots, limiter, fds
      ensures Reached(events, i + 1, status, u, k)
    {
      ghost var before := limiter.kernel;
      status := Turn(events[i], fds);
      BuriedMore(k, before, limiter.kernel, socket, events, i);
    }

    method EventLoop(events: seq<Event>, fds: array<int>) returns (status: Status, n: nat)
      requires Valid() && Watched() == map[] && fds.Length == MAX_WATCHED_PIDS + 2
      modifies this, slots, limiter, fds
      ensures n <= |events| && Reached(events, n, status, old(multiset(unregistered)), old(limiter.kernel))
      ensures status == Running ==> n == |events|
    {
      ghost var u, k := multiset(unregistered), limiter.kernel;
      Started(events);
      status, n := Running, 0;
      while n < |events| && status == Running
        invariant n <= |events| && Reached(events, n, status, u, k)
      {
        status := NextEvent(events, n, fds, u, k);
        n := n + 1;
      }
    }

    /** The cleanup after the loop. */
    method CloseAll()
      requires Valid()
      modifies this`ledger
      ensures Proper(ledger) && OpenAfter(ledger) == {}
    {
      ghost var t := slots[..];
      FromFirst(t, pos);
      var i := 0;
      while i < slots.Length
        invariant 0 <= i <= slots.Length && Proper(ledger)
        invariant OpenAfter(ledger) == Fds(From(t, pos, i))
      {
        if slots[i].active {
          CloseNext(t, pos, i, ledger);
          ledger := ledger + [Closed(slots[i].pidfd)];
        } else {
          FromNext(t, pos, i);
        }
        i := i + 1;
      }
      FromEnd(t, pos);
    }
  }

  lemma CloseNext(t: seq<Entry>, pos: map<int, nat>, i: nat, ledger: seq<FdEvent>)
    requires Indexed(t, pos) && i < |t| && t[i].active && Distinct(WatchedIn(t, pos))
    requires Proper(ledger) && OpenAfter(ledger) == Fds(From(t, pos, i))
    ensures var log := ledger + [Closed(t[i].pidfd)]; Proper(log) && OpenAfter(log) == Fds(From(t, pos, i + 1))
  {
    FromNext(t, pos, i);
    WithoutOne(From(t, pos, i), t[i].pid);
    LogOne(ledger, Closed(t[i].pidfd));
  }

  lemma HotIsReadable(polled: seq<int>, readable: set<int>, w: Watched)
    requires |polled| >= 1 && forall fd :: fd in polled[1..] <==> fd in Fds(w)
    ensures HotSet(polled, readable) == readable * Fds(w)
  {
    forall fd ensures fd in HotSet(polled, readable) <==> fd in readable * Fds(w) {
      assert fd in polled[1..] <==> fd in Fds(w);
    }
  }

  /** The watches in slots `i` and later. */
  ghost function From(t: seq<Entry>, pos: map<int, nat>, i: nat): Watched
    requires Indexed(t, pos)
  {
    map p | p in pos && pos[p] >= i :: WatchedIn(t, pos)[p]
  }

  lemma FromFirst(t: seq<Entry>, pos: map<int, nat>)
    requires Indexed(t, pos)
    ensures From(t, pos, 0) == WatchedIn(t, pos)
  {}

  lemma FromEnd(t: seq<Entry>, pos: map<int, nat>)
    requires Indexed(t, pos)
    ensures From(t, pos, |t|) == map[]
  {
    forall p | p in pos ensures pos[p] < |t| {
      assert Holds(t[pos[p]], p);
    }
  }

  lemma FromNext(t: seq<Entry>, pos: map<int, nat>, i: nat)
    requires Indexed(t, pos) && i < |t| && Distinct(WatchedIn(t, pos))
    ensures Distinct(From(t, pos, i))
    ensures !t[i].active ==> From(t, pos, i + 1) == From(t, pos, i)
    ensures t[i].active ==> t[i].pid in From(t, pos, i) && From(t, pos, i)[t[i].pid] as int == t[i].pidfd
                            && From(t, pos, i + 1) == From(t, pos, i) - {t[i].pid}
  {
    forall p | p in pos && pos[p] == i ensures t[i].active && t[i].pid == p {
      assert Holds(t[pos[p]], p);
    }
  }

  ghost predicate NoRepeats(s: seq<int>) {
    forall i, j :: 0 <= i < j < |s| ==> s[i] != s[j]
  }

  /** The dead of a turn, once each. */
  ghost predicate DeadList(dead: seq<int>, w: Watched, c: Connection, readable: set<int>) {
    NoRepeats(dead) && forall p :: p in dead <==> DeadThisTurn(w, c, readable, p)
  }

  lemma {:induction false} OnceEach(s: seq<int>, all: set<int>)
    requires NoRepeats(s) && forall p :: p in s <==> p in all
    ensures multiset(s) == multiset(all)
  {
    if s == [] {
      assert forall p :: p in all ==> p in s;
      assert all == {};
    } else {
      var n := |s| - 1;
      var x := s[n];
      assert s == s[..n] + [x] && x in s && x in all;
      OnceEach(s[..n], all - {x});
      assert all == (all - {x}) + {x};
    }
  }

  /** A turn's failed watch and its dead are exactly those it gives up, once each. */
  lemma AllGivenUp(w: Watched, socket: int, e: Event, dead: seq<int>)
    requires e.Ready? && !e.connection.Dropped? && DeadList(dead, w, e.connection, e.readable)
    ensures multiset(FailedWatch(w, socket, e.connection)) + multiset(dead) == multiset(GivenUp(w, socket, e))
  {
    var failed, given := FailedWatch(w, socket, e.connection), GivenUp(w, socket, e);
    assert forall p :: p in failed ==> p !in w;
    forall p ensures p in failed + dead <==> p in given {
      assert p in dead <==> DeadThisTurn(w, e.connection, e.readable, p);
    }
    FirstApart(failed, dead);
    OnceEach(failed + dead, given);
    assert multiset(failed + dead) == multiset(failed) + multiset(dead);
  }

  lemma FirstApart(a: seq<int>, b: seq<int>)
    requires |a| <= 1 && NoRepeats(b) && forall p :: p in a ==> p !in b
    ensures NoRepeats(a + b)
  {
    forall i, j | 0 <= i < j < |a + b| ensures (a + b)[i] != (a + b)[j] {
      assert (a + b)[j] == b[j - |a|];
      if i >= |a| {
        assert (a + b)[i] == b[i - |a|];
      } else {
        assert a[i] in a;
      }
    }
  }

  /** `p` was on the list before turn `i` and is not at the end. */
  ghost predicate OffTheList(socket: int, es: seq<Event>, i: int, p: int) {
    0 <= i <= |es| && p in After(socket, es, i).watched && p !in After(socket, es, |es|).watched
  }

  ghost predicate UnwatchedSince(socket: int, es: seq<Event>, i: int, p: int) {
    exists k :: 0 <= i <= k < |es| && TakenOff(socket, es, k, p) && Unwatches(es[k], p)
  }

  lemma AllAccounted(socket: int, es: seq<Event>, u: multiset<int>)
    ensures forall i, p :: OffTheList(socket, es, i, p) ==> p in u + GivenUpTo(socket, es, |es|) || UnwatchedSince(socket, es, i, p)
  {
    forall i, p | OffTheList(socket, es, i, p)
      ensures p in u + GivenUpTo(socket, es, |es|) || UnwatchedSince(socket, es, i, p)
    {
      AccountedFor(socket, es, i, |es|, p);
    }
  }

  lemma {:induction false} DeadAre(t: seq<Entry>, pos: map<int, nat>, hot: set<int>, n: nat)
    requires Indexed(t, pos) && n <= |t|
    ensures forall p :: p in Dead(t, hot, n) <==> p in pos && pos[p] < n && Dying(t[pos[p]], hot)
    ensures NoRepeats(Dead(t, hot, n))
  {
    if n > 0 {
      DeadAre(t, pos, hot, n - 1);
      forall p | p in pos && pos[p] == n - 1 ensures t[n - 1].active && t[n - 1].pid == p {
        assert Holds(t[pos[p]], p);
      }
    }
  }

  lemma DeadExactly(t: seq<Entry>, pos: map<int, nat>, w: Watched, socket: int, c: Connection, readable: set<int>)
    requires Indexed(t, pos) && Sound(w, socket) && WatchedIn(t, pos) == AfterConnection(w, socket, c)
    ensures DeadList(Dead(t, readable * Fds(w), |t|), w, c, readable)
  {
    var hot := readable * Fds(w);
    DeadAre(t, pos, hot, |t|);
    var now := WatchedIn(t, pos);
    forall p ensures p in Dead(t, hot, |t|) <==> DeadThisTurn(w, c, readable, p) {
      DeathPassExact(w, socket, c, readable, p);
      if p in pos {
        assert Holds(t[pos[p]], p) && now[p] as int == t[pos[p]].pidfd;
      }
    }
  }

  /** The descriptors polled (after the socket) and reported readable. */
  ghost function HotSet(fds: seq<int>, readable: set<int>): set<int>
    requires |fds| >= 1
  {
    set fd | fd in fds[1..] && fd in readable
  }

  ghost predicate Dying(e: Entry, hot: set<int>) { e.active && e.pidfd in hot }

  ghost predicate Swept(t: seq<Entry>, t': seq<Entry>, hot: set<int>, n: nat) {
    |t'| == |t| && forall k :: 0 <= k < |t| ==> t'[k] == if k < n && Dying(t[k], hot) then CLEARED else t[k]
  }

  /** The dead among the first `n` slots, in slot order. */
  ghost function Dead(t: seq<Entry>, hot: set<int>, n: nat): seq<int>
    requires n <= |t|
  {
    if n == 0 then [] else Dead(t, hot, n - 1) + (if Dying(t[n - 1], hot) then [t[n - 1].pid] else [])
  }

  /** One PID's cgroup is deleted, as far as the calls succeed. */
  ghost predicate Deleted(j: KernelState, k: KernelState, pid: int, c: DeleteCalls) {
    k.children <= j.children && SameElsewhere(j, k, pid) && (AllSucceed(c) ==> !HasCgroup(k, pid))
  }

  ghost function Left(t: seq<Entry>, pos: map<int, nat>, hot: set<int>, n: nat): Watched
    requires Indexed(t, pos)
  {
    var w := WatchedIn(t, pos);
    map p | p in w && !(w[p] as int in hot && pos[p] < n) :: w[p]
  }

  lemma LeftStart(t: seq<Entry>, pos: map<int, nat>, hot: set<int>)
    requires Indexed(t, pos)
    ensures Left(t, pos, hot, 0) == WatchedIn(t, pos)
  {}

  lemma NoneYet(t: seq<Entry>, hot: set<int>, k: KernelState, u: seq<int>, deletes: map<int, DeleteCalls>)
    ensures Swept(t, t, hot, 0) && u + Dead(t, hot, 0) == u && Buried(k, k, multiset(Dead(t, hot, 0)), deletes)
  {}

  lemma LeftAll(t: seq<Entry>, pos: map<int, nat>, hot: set<int>)
    requires Indexed(t, pos)
    ensures Left(t, pos, hot, |t|) == Survivors(WatchedIn(t, pos), hot)
  {
    forall p | p in pos ensures pos[p] < |t| {
      assert Holds(t[pos[p]], p);
    }
  }

  lemma LeftStep(t: seq<Entry>, pos: map<int, nat>, hot: set<int>, i: nat)
    requires Indexed(t, pos) && i < |t|
    ensures !Dying(t[i], hot) ==> Left(t, pos, hot, i + 1) == Left(t, pos, hot, i)
    ensures Dying(t[i], hot) ==> t[i].pid in Left(t, pos, hot, i)
                                 && Left(t, pos, hot, i + 1) == Left(t, pos, hot, i) - {t[i].pid}
  {
    forall p | p in pos && pos[p] == i ensures t[i].active && t[i].pid == p {
      assert Holds(t[pos[p]], p);
    }
  }

  /** The slot being visited is the only one that still holds its PID. */
  lemma SweptOne(t: seq<Entry>, pos: map<int, nat>, before: seq<Entry>, now: seq<Entry>, hot: set<int>, i: nat)
    requires Indexed(t, pos) && i < |t| && Dying(t[i], hot)
    requires Swept(t, before, hot, i) && CalledBack(before, now, t[i].pid)
    ensures Swept(t, now, hot, i + 1)
  {
    assert pos[t[i].pid] == i;
  }

  /** A death pass: the table and index it began with, the descriptors found readable, and the
      list of those unregistered and the kernel before it. */
  datatype Pass = Pass(t: seq<Entry>, pos: map<int, nat>, hot: set<int>, u: seq<int>, k: KernelState, deletes: map<int, DeleteCalls>)

  ghost predicate PassedTo(pass: Pass, i: nat, table: seq<Entry>, w: Watched, u: seq<int>, k: KernelState)
    requires Indexed(pass.t, pass.pos) && i <= |pass.t|
  {
    && Swept(pass.t, table, pass.hot, i) && w == Left(pass.t, pass.pos, pass.hot, i)
    && u == pass.u + Dead(pass.t, pass.hot, i)
    && Buried(pass.k, k, multiset(Dead(pass.t, pass.hot, i)), pass.deletes)
  }

  lemma PassSkips(pass: Pass, i: nat, table: seq<Entry>, w: Watched, u: seq<int>, k: KernelState)
    requires Indexed(pass.t, pass.pos) && i < |pass.t| && !Dying(pass.t[i], pass.hot) && PassedTo(pass, i, table, w, u, k)
    ensures PassedTo(pass, i + 1, table, w, u, k)
  {
    LeftStep(pass.t, pass.pos, pass.hot, i);
    assert Dead(pass.t, pass.hot, i + 1) == Dead(pass.t, pass.hot, i);
  }

  lemma PassBuries(pass: Pass, i: nat, before: seq<Entry>, w: Watched, u: seq<int>, k: KernelState, table: seq<Entry>, k': KernelState)
    requires Indexed(pass.t, pass.pos) && i < |pass.t| && Dying(pass.t[i], pass.hot) && PassedTo(pass, i, before, w, u, k)
    requires CalledBack(before, table, pass.t[i].pid)
    requires Deleted(k, k', pass.t[i].pid, CallsFor(pass.deletes, pass.t[i].pid))
    ensures PassedTo(pass, i + 1, table, Remove(w, pass.t[i].pid).0, u + [pass.t[i].pid], k')
  {
    var dead := Dead(pass.t, pass.hot, i);
    SweptOne(pass.t, pass.pos, before, table, pass.hot, i);
    LeftStep(pass.t, pass.pos, pass.hot, i);
    BuriedOne(pass.k, k, k', dead, pass.t[i].pid, pass.deletes);
    assert pass.u + dead + [pass.t[i].pid] == pass.u + (dead + [pass.t[i].pid]);
  }

  lemma BuriedOne(j: KernelState, k: KernelState, k': KernelState, dead: seq<int>, pid: int, deletes: map<int, DeleteCalls>)
    requires Buried(j, k, multiset(dead), deletes) && Deleted(k, k', pid, CallsFor(deletes, pid))
    ensures Buried(j, k', multiset(dead + [pid]), deletes)
  {
    forall q | q !in multiset(dead + [pid]) ensures SamePid(j, k', q) {
      assert q !in multiset(dead) && q != pid;
    }
    forall p | p in multiset(dead + [pid]) && AllSucceed(CallsFor(deletes, p)) ensures !HasCgroup(k', p) {
      if p != pid {
        assert p in multiset(dead);
      }
    }
  }

  /** The callback clears the slot of `pid` and no other. */
  ghost predicate CalledBack(t: seq<Entry>, t': seq<Entry>, pid: int) {
    |t'| == |t| && forall k :: 0 <= k < |t| ==> t'[k] == if Holds(t[k], pid) then CLEARED else t[k]
  }
}
