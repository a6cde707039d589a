/** Which processes use the network: sockets are reported one by one and folded into a growing
    array with one entry per process. */
module Discovery {

  datatype ProcessInfo = ProcessInfo(pid: int, name: string, exePath: string, connections: int, tcp: bool, udp: bool)

  /** One socket found to belong to `pid`, and what /proc would show of that process just then:
      the first line of its `comm` and the target of its `exe`, each empty if unreadable. */
  datatype Observation = Observation(pid: int, tcp: bool, comm: string, exe: string)

  // ---- names ----------------------------------------------------------------------------

  const COMM_MAX := 31
  const PATH_LIMIT := 4095

  predicate Printable(c: char) { c >= ' ' && c != '\U{7f}' }

  /** Control characters become question marks. */
  function Sanitise(s: string): (r: string)
    ensures |r| == |s| && forall i :: 0 <= i < |s| ==> r[i] == if Printable(s[i]) then s[i] else '?'
  {
    if s == [] then [] else [if Printable(s[0]) then s[0] else '?'] + Sanitise(s[1..])
  }

  function Truncate(s: string, n: nat): (r: string)
    ensures |r| <= n && r <= s
  {
    if |s| <= n then s else s[..n]
  }

  /** `fgets` into the name buffer, one trailing newline dropped, the rest sanitised. */
  function CleanName(comm: string): (r: string)
    ensures |r| <= COMM_MAX && forall i :: 0 <= i < |r| ==> Printable(r[i])
  {
    var line := Truncate(comm, COMM_MAX);
    Sanitise(if line != [] && line[|line| - 1] == '\n' then line[..|line| - 1] else line)
  }

  function CleanPath(exe: string): (r: string)
    ensures forall i :: 0 <= i < |r| ==> Printable(r[i])
  {
    Sanitise(Truncate(exe, PATH_LIMIT))
  }

  /** `r` is the first `n` characters of `s`, or all of them, with control characters shown as `?`. */
  ghost predicate ShownUpTo(r: string, s: string, n: nat) {
    && |r| == (if |s| < n then |s| else n)
    && forall i :: 0 <= i < |r| ==> r[i] == if Printable(s[i]) then s[i] else '?'
  }

  /** A name is shown without the newline that ends the line it was read from, cut to 31
      characters, every printable character in its place. */
  lemma NameKept(comm: string, newline: bool)
    requires '\n' !in comm
    ensures ShownUpTo(CleanName(if newline then comm + "\n" else comm), comm, 31)
  {
    var text := if newline then comm + "\n" else comm;
    assert forall i :: 0 <= i < |comm| ==> text[i] == comm[i];
    var line := Truncate(text, COMM_MAX);
    if line != [] && line[|line| - 1] == '\n' {
      assert |comm| < COMM_MAX && line[..|line| - 1] == comm;
    }
  }

  lemma PathKept(exe: string)
    ensures ShownUpTo(CleanPath(exe), exe, 4095)
  {}

  // ---- the fold -------------------------------------------------------------------------

  function NewEntry(o: Observation): ProcessInfo {
    ProcessInfo(o.pid, CleanName(o.comm), CleanPath(o.exe), 1, o.tcp, !o.tcp)
  }

  function Bump(e: ProcessInfo, tcp: bool): ProcessInfo {
    e.(connections := e.connections + 1, tcp := e.tcp || tcp, udp := e.udp || !tcp)
  }

  /** The index of `pid`, or the length of the list. */
  function Find(a: seq<ProcessInfo>, pid: int): (k: nat)
    ensures k <= |a| && (k < |a| ==> a[k].pid == pid)
    ensures forall i :: 0 <= i < k ==> a[i].pid != pid
  {
    if a == [] || a[0].pid == pid then 0
    else
      assert forall i :: 1 <= i < |a| ==> a[i] == a[1..][i - 1];
      1 + Find(a[1..], pid)
  }

  function Absorb(a: seq<ProcessInfo>, o: Observation): seq<ProcessInfo> {
    var k := Find(a, o.pid);
    if k < |a| then a[k := Bump(a[k], o.tcp)] else a + [NewEntry(o)]
  }

  function Aggregate(obs: seq<Observation>): seq<ProcessInfo> {
    if obs == [] then [] else Absorb(Aggregate(obs[..|obs| - 1]), obs[|obs| - 1])
  }

  // ---- what the fold means --------------------------------------------------------------

  function Occurrences(obs: seq<Observation>, pid: int): nat {
    if obs == [] then 0
    else Occurrences(obs[..|obs| - 1], pid) + (if obs[|obs| - 1].pid == pid then 1 else 0)
  }

  ghost predicate Saw(obs: seq<Observation>, pid: int, tcp: bool) {
    exists k :: 0 <= k < |obs| && obs[k].pid == pid && obs[k].tcp == tcp
  }

  /** `e` is what the observations say of its PID, first seen at `k`. */
  ghost predicate Describes(e: ProcessInfo, obs: seq<Observation>, k: nat) {
    && k < |obs| && obs[k].pid == e.pid && (forall i :: 0 <= i < k ==> obs[i].pid != e.pid)
    && e.name == CleanName(obs[k].comm) && e.exePath == CleanPath(obs[k].exe)
    && e.connections == Occurrences(obs, e.pid)
    && (e.tcp <==> Saw(obs, e.pid, true)) && (e.udp <==> Saw(obs, e.pid, false))
  }

  /** `first` are the first-seen positions, in order: one entry per distinct PID. */
  ghost predicate Summarises(a: seq<ProcessInfo>, obs: seq<Observation>, first: seq<nat>) {
    AllDescribed(a, obs, first) && Increasing(first) && Covered(a, obs)
  }

  ghost predicate AllDescribed(a: seq<ProcessInfo>, obs: seq<Observation>, first: seq<nat>) {
    |first| == |a| && forall i :: 0 <= i < |a| ==> Describes(a[i], obs, first[i])
  }

  ghost predicate Increasing(first: seq<nat>) {
    forall i, j :: 0 <= i < j < |first| ==> first[i] < first[j]
  }

  ghost predicate Covered(a: seq<ProcessInfo>, obs: seq<Observation>) {
    forall k :: 0 <= k < |obs| ==> Find(a, obs[k].pid) < |a|
  }

  lemma {:induction false} NeverSeen(obs: seq<Observation>, pid: int)
    requires forall k :: 0 <= k < |obs| ==> obs[k].pid != pid
    ensures Occurrences(obs, pid) == 0
  {
    if obs != [] {
      NeverSeen(obs[..|obs| - 1], pid);
    }
  }

  lemma SawOneMore(obs: seq<Observation>, o: Observation, pid: int, tcp: bool)
    ensures Saw(obs + [o], pid, tcp) <==> Saw(obs, pid, tcp) || (o.pid == pid && o.tcp == tcp)
  {
    var more := obs + [o];
    if Saw(obs, pid, tcp) {
      var k :| 0 <= k < |obs| && obs[k].pid == pid && obs[k].tcp == tcp;
      assert more[k] == obs[k];
    }
    assert more[|obs|] == o;
  }

  lemma DescribesOneMore(e: ProcessInfo, obs: seq<Observation>, k: nat, o: Observation)
    requires Describes(e, obs, k)
    ensures Describes(if o.pid == e.pid then Bump(e, o.tcp) else e, obs + [o], k)
  {
    assert (obs + [o])[..|obs|] == obs;
    SawOneMore(obs, o, e.pid, true);
    SawOneMore(obs, o, e.pid, false);
  }

  lemma DescribesNew(obs: seq<Observation>, o: Observation)
    requires forall k :: 0 <= k < |obs| ==> obs[k].pid != o.pid
    ensures Describes(NewEntry(o), obs + [o], |obs|)
  {
    assert (obs + [o])[..|obs|] == obs;
    NeverSeen(obs, o.pid);
    SawOneMore(obs, o, o.pid, true);
    SawOneMore(obs, o, o.pid, false);
  }

  lemma AbsorbEntry(a: seq<ProcessInfo>, obs: seq<Observation>, first: seq<nat>, o: Observation, i: nat)
    requires Summarises(a, obs, first) && i < |a|
    ensures Describes(Absorb(a, o)[i], obs + [o], first[i])
  {
    var k := Find(a, o.pid);
    DescribesOneMore(a[i], obs, first[i], o);
    if k < |a| && a[i].pid == o.pid {
      Apart(a, obs, first, i, k);
    }
  }

  lemma AbsorbCovers(a: seq<ProcessInfo>, obs: seq<Observation>, o: Observation)
    requires Covered(a, obs)
    ensures Covered(Absorb(a, o), obs + [o])
  {
    var a' := Absorb(a, o);
    forall j | 0 <= j < |obs + [o]| ensures Find(a', (obs + [o])[j].pid) < |a'| {
      var k := Find(a, (obs + [o])[j].pid);
      assert a'[k].pid == (obs + [o])[j].pid;
    }
  }

  lemma AbsorbNew(a: seq<ProcessInfo>, obs: seq<Observation>, o: Observation)
    requires Find(a, o.pid) == |a| && Covered(a, obs)
    ensures Describes(NewEntry(o), obs + [o], |obs|)
  {
    DescribesNew(obs, o);
  }

  lemma AbsorbAll(a: seq<ProcessInfo>, obs: seq<Observation>, first: seq<nat>, o: Observation)
    requires Summarises(a, obs, first)
    ensures forall i :: 0 <= i < |a| ==> Describes(Absorb(a, o)[i], obs + [o], first[i]) && first[i] < |obs|
  {
    forall i | 0 <= i < |a| ensures Describes(Absorb(a, o)[i], obs + [o], first[i]) && first[i] < |obs| {
      AbsorbEntry(a, obs, first, o, i);
      assert Describes(a[i], obs, first[i]);
    }
  }

  lemma Appended(a: seq<ProcessInfo>, obs: seq<Observation>, first: seq<nat>, e: ProcessInfo)
    requires |first| == |a| && 0 < |obs| && Describes(e, obs, |obs| - 1)
    requires forall i :: 0 <= i < |a| ==> Describes(a[i], obs, first[i]) && first[i] < |obs| - 1
    requires Increasing(first)
    ensures AllDescribed(a + [e], obs, first + [|obs| - 1]) && Increasing(first + [|obs| - 1])
  {}

  lemma OthersStay(a: seq<ProcessInfo>, obs: seq<Observation>, first: seq<nat>, o: Observation, i: nat)
    requires AllDescribed(a, obs, first) && Find(a, o.pid) == |a| && i < |a|
    ensures Describes(a[i], obs + [o], first[i]) && first[i] < |obs|
  {
    DescribesOneMore(a[i], obs, first[i], o);
  }

  lemma AllOthersStay(a: seq<ProcessInfo>, obs: seq<Observation>, first: seq<nat>, o: Observation)
    requires AllDescribed(a, obs, first) && Find(a, o.pid) == |a|
    ensures forall i :: 0 <= i < |a| ==> Describes(a[i], obs + [o], first[i]) && first[i] < |obs|
  {
    forall i | 0 <= i < |a| ensures Describes(a[i], obs + [o], first[i]) && first[i] < |obs| {
      OthersStay(a, obs, first, o, i);
    }
  }

  lemma AbsorbFresh(a: seq<ProcessInfo>, obs: seq<Observation>, first: seq<nat>, o: Observation)
    requires AllDescribed(a, obs, first) && Increasing(first) && Covered(a, obs) && Find(a, o.pid) == |a|
    ensures AllDescribed(a + [NewEntry(o)], obs + [o], first + [|obs|]) && Increasing(first + [|obs|])
  {
    AllOthersStay(a, obs, first, o);
    AbsorbNew(a, obs, o);
    Appended(a, obs + [o], first, NewEntry(o));
  }

  lemma AbsorbKnown(a: seq<ProcessInfo>, obs: seq<Observation>, first: seq<nat>, o: Observation)
    requires Summarises(a, obs, first) && Find(a, o.pid) < |a|
    ensures AllDescribed(Absorb(a, o), obs + [o], first)
  {
    AbsorbAll(a, obs, first, o);
  }

  lemma AbsorbSummarises(a: seq<ProcessInfo>, obs: seq<Observation>, first: seq<nat>, o: Observation,
                         a': seq<ProcessInfo>, all: seq<Observation>)
    returns (first': seq<nat>)
    requires Summarises(a, obs, first) && all == obs + [o] && a' == Absorb(a, o)
    ensures Summarises(a', all, first')
  {
    AbsorbCovers(a, obs, o);
    if Find(a, o.pid) < |a| {
      AbsorbKnown(a, obs, first, o);
      first' := first;
    } else {
      AbsorbFresh(a, obs, first, o);
      first' := first + [|obs|];
    }
  }

  /** Entries have distinct PIDs. */
  lemma Apart(a: seq<ProcessInfo>, obs: seq<Observation>, first: seq<nat>, i: nat, j: nat)
    requires Summarises(a, obs, first) && i < |a| && j < |a| && a[i].pid == a[j].pid
    ensures i == j
  {
    assert Describes(a[i], obs, first[i]) && Describes(a[j], obs, first[j]);
  }

  /** For every sequence of observations the list has one entry per distinct PID in first-seen
      order, counting its sockets, flagging exactly the protocols seen, and named as it was at
      first sight. */
  lemma {:induction false} AggregateMeans(obs: seq<Observation>) returns (first: seq<nat>)
    ensures Summarises(Aggregate(obs), obs, first)
  {
    if obs == [] {
      first := [];
    } else {
      var init, last := obs[..|obs| - 1], obs[|obs| - 1];
      var before := AggregateMeans(init);
      AggregateLast(obs, init, last);
      first := AbsorbSummarises(Aggregate(init), init, before, last, Aggregate(obs), obs);
    }
  }

  lemma AggregateLast(obs: seq<Observation>, init: seq<Observation>, last: Observation)
    requires obs != [] && init == obs[..|obs| - 1] && last == obs[|obs| - 1]
    ensures obs == init + [last] && Aggregate(obs) == Absorb(Aggregate(init), last)
  {}

  lemma DistinctPids(obs: seq<Observation>)
    ensures forall i, j :: 0 <= i < j < |Aggregate(obs)| ==> Aggregate(obs)[i].pid != Aggregate(obs)[j].pid
  {
    var first := AggregateMeans(obs);
    var a := Aggregate(obs);
    forall i, j | 0 <= i < j < |a| ensures a[i].pid != a[j].pid {
      if a[i].pid == a[j].pid {
        Apart(a, obs, first, i, j);
      }
    }
  }

  // ---- the array ------------------------------------------------------------------------

  const BLANK := ProcessInfo(0, "", "", 0, false, false)

  class ProcessList {
    var processes: array<ProcessInfo>
    var count: nat
    var capacity: nat

    ghost predicate Valid()
      reads this
    {
      count <= capacity == processes.Length && capacity > 0
    }

    ghost function Entries(): seq<ProcessInfo>
      requires Valid()
      reads this, processes
    {
      processes[..count]
    }

    constructor ()
      ensures Valid() && Entries() == [] && fresh(processes)
    {
      capacity, count := 64, 0;
      processes := new ProcessInfo[64](_ => BLANK);
    }

    /** `add_process_list`.  It fails only when the array is full, the PID is new and the
        reallocation fails; the capacity has been doubled by then, so the list is unusable and
        its owner discards it. */
    method Add(o: Observation, realloc: bool) returns (ok: bool)
      requires Valid()
      modifies this, processes
      ensures ok <==> realloc || old(count) < old(capacity) || Find(old(Entries()), o.pid) < |old(Entries())|
      ensures ok ==> Valid() && Entries() == Absorb(old(Entries()), o)
      ensures ok ==> processes == old(processes) || fresh(processes)
      ensures !ok ==> processes == old(processes) && count == old(count)
      ensures capacity == if old(count) >= old(capacity) && Find(old(Entries()), o.pid) == |old(Entries())|
                          then 2 * old(capacity) else old(capacity)
    {
      ghost var a := Entries();
      var i := 0;
      while i < count
        invariant 0 <= i <= count && forall k :: 0 <= k < i ==> processes[k].pid != o.pid
      {
        if processes[i].pid == o.pid {
          assert a[i].pid == o.pid && forall k :: 0 <= k < i ==> a[k] == processes[k];
          assert Find(a, o.pid) == i;
          processes[i] := Bump(processes[i], o.tcp);
          assert Entries() == a[i := Bump(a[i], o.tcp)];
          return true;
        }
        i := i + 1;
      }
      assert Find(a, o.pid) == |a|;
      if count >= capacity {
        capacity := capacity * 2;
        if !realloc {
          return false;
        }
        var bigger := new ProcessInfo[capacity](_ => BLANK);
        forall k | 0 <= k < count {
          bigger[k] := processes[k];
        }
        processes := bigger;
        assert processes[..count] == a;
      }
      processes[count] := NewEntry(o);
      count := count + 1;
      assert Entries() == a + [NewEntry(o)];
      return true;
    }
  }

  // ---- the queries ----------------------------------------------------------------------

  /** One socket a query reports: its user, the process found to own it (or none), what /proc shows
      of that process, and whether memory for a further entry can be had. */
  datatype Report = Report(uid: nat, owner: int, comm: string, exe: string, realloc: bool)

  /** Is the request sent, what is received, and does the answer end properly? */
  datatype Query = Query(sent: bool, reports: seq<Report>, complete: bool)

  datatype DiscoveryCalls = DiscoveryCalls(socket: bool, bind: bool, alloc: bool, queries: seq<Query>)

  datatype DiscoveryCode = DiscoveryOk | DiscoveryAlloc | DiscoverySocket | DiscoveryBind | DiscoveryRecvmsg

  const UID_MIN_DEFAULT := 1000

  /** Root's sockets and those of ordinary users, if the owner was found. */
  predicate Counted(r: Report) { (r.uid == 0 || r.uid >= UID_MIN_DEFAULT) && r.owner > 0 }

  function ObservationOf(r: Report, tcp: bool): Observation { Observation(r.owner, tcp, r.comm, r.exe) }

  function Observed(reports: seq<Report>, tcp: bool): seq<Observation> {
    if reports == [] then []
    else
      var last := reports[|reports| - 1];
      Observed(reports[..|reports| - 1], tcp) + (if Counted(last) then [ObservationOf(last, tcp)] else [])
  }

  /** What the first `n` queries observe: two for TCP, then two for UDP. */
  function ObservedIn(queries: seq<Query>, n: nat): seq<Observation>
    requires n <= |queries|
  {
    if n == 0 then [] else ObservedIn(queries, n - 1) + Observed(queries[n - 1].reports, n - 1 < 2)
  }

  predicate Answered(q: Query) { q.sent && q.complete }

  ghost predicate MemorySuffices(reports: seq<Report>) { forall i :: 0 <= i < |reports| ==> reports[i].realloc }

  ghost predicate EnoughMemory(queries: seq<Query>) { forall i :: 0 <= i < |queries| ==> MemorySuffices(queries[i].reports) }

  lemma AggregateOne(before: seq<Observation>, reports: seq<Report>, tcp: bool, i: nat)
    requires i < |reports|
    ensures var sofar := Aggregate(before + Observed(reports[..i], tcp));
            Aggregate(before + Observed(reports[..i + 1], tcp)) ==
            if Counted(reports[i]) then Absorb(sofar, ObservationOf(reports[i], tcp)) else sofar
  {
    assert reports[..i + 1][..i] == reports[..i];
    var seen := before + Observed(reports[..i], tcp);
    if Counted(reports[i]) {
      var all := before + Observed(reports[..i + 1], tcp);
      assert all == seen + [ObservationOf(reports[i], tcp)];
      assert all[..|all| - 1] == seen;
    } else {
      assert Observed(reports[..i + 1], tcp) == Observed(reports[..i], tcp);
    }
  }

  /** The list after the first `i` reports of a query that found it at `before`. */
  ghost predicate ListedTo(l: ProcessList, before: seq<Observation>, reports: seq<Report>, tcp: bool, i: nat)
    requires i <= |reports|
    reads l, l.processes
  {
    l.Valid() && l.Entries() == Aggregate(before + Observed(reports[..i], tcp))
  }

  method TakeReport(l: ProcessList, reports: seq<Report>, tcp: bool, i: nat, ghost before: seq<Observation>) returns (ok: bool)
    requires i < |reports| && ListedTo(l, before, reports, tcp, i)
    modifies l, l.processes
    ensures ok ==> ListedTo(l, before, reports, tcp, i + 1) && (l.processes == old(l.processes) || fresh(l.processes))
    ensures reports[i].realloc ==> ok
  {
    AggregateOne(before, reports, tcp, i);
    ok := true;
    if Counted(reports[i]) {
      ok := l.Add(ObservationOf(reports[i], tcp), reports[i].realloc);
    }
  }

  lemma NoReports(before: seq<Observation>, reports: seq<Report>, tcp: bool)
    ensures before + Observed(reports[..0], tcp) == before && reports[..|reports|] == reports
  {}

  /** `query_sockets`. */
  method QuerySockets(l: ProcessList, q: Query, tcp: bool, ghost before: seq<Observation>) returns (ok: bool)
    requires l.Valid() && l.Entries() == Aggregate(before)
    modifies l, l.processes
    ensures ok ==> Answered(q) && l.Valid() && l.Entries() == Aggregate(before + Observed(q.reports, tcp))
    ensures ok ==> l.processes == old(l.processes) || fresh(l.processes)
    ensures MemorySuffices(q.reports) ==> (ok <==> Answered(q))
  {
    if !q.sent {
      return false;
    }
    NoReports(before, q.reports, tcp);
    var i := 0;
    while i < |q.reports|
      invariant 0 <= i <= |q.reports| && ListedTo(l, before, q.reports, tcp, i)
      invariant l.processes == old(l.processes) || fresh(l.processes)
    {
      var added := TakeReport(l, q.reports, tcp, i, before);
      if !added {
        return false;
      }
      i := i + 1;
    }
    return q.complete;
  }

  /** The list after the first `n` queries. */
  ghost predicate ListedAfter(l: ProcessList, queries: seq<Query>, n: nat)
    requires n <= |queries|
    reads l, l.processes
  {
    l.Valid() && l.Entries() == Aggregate(ObservedIn(queries, n))
  }

  method NextQuery(l: ProcessList, queries: seq<Query>, n: nat) returns (ok: bool)
    requires n < |queries| && ListedAfter(l, queries, n)
    modifies l, l.processes
    ensures ok ==> Answered(queries[n]) && ListedAfter(l, queries, n + 1) && (l.processes == old(l.processes) || fresh(l.processes))
    ensures !ok && EnoughMemory(queries) ==> !AllAnswered(queries)
  {
    ok := QuerySockets(l, queries[n], n < 2, ObservedIn(queries, n));
  }

  /** The four queries in turn, up to the first that fails. */
  method RunQueries(l: ProcessList, queries: seq<Query>) returns (ok: bool)
    requires |queries| == 4 && ListedAfter(l, queries, 0)
    modifies l, l.processes
    ensures ok ==> AllAnswered(queries) && ListedAfter(l, queries, 4)
    ensures !ok && EnoughMemory(queries) ==> !AllAnswered(queries)
  {
    ok := NextQuery(l, queries, 0);
    if !ok {
      return;
    }
    ok := NextQuery(l, queries, 1);
    if !ok {
      return;
    }
    ok := NextQuery(l, queries, 2);
    if !ok {
      return;
    }
    ok := NextQuery(l, queries, 3);
    if ok {
      FourAnswered(queries);
    }
  }

  lemma FourAnswered(queries: seq<Query>)
    requires |queries| == 4 && Answered(queries[0]) && Answered(queries[1]) && Answered(queries[2]) && Answered(queries[3])
    ensures AllAnswered(queries)
  {}

  /** `get_network_processes`.  Where memory suffices the code tells exactly which call failed, and
      a list that is returned is the aggregate of all that was observed. */
  method GetNetworkProcesses(c: DiscoveryCalls) returns (code: DiscoveryCode, list: seq<ProcessInfo>)
    requires |c.queries| == 4
    ensures code.DiscoveryOk? ==>
              c.socket && c.bind && c.alloc && AllAnswered(c.queries) && list == Aggregate(ObservedIn(c.queries, 4))
    ensures !code.DiscoveryOk? ==> list == []
    ensures EnoughMemory(c.queries) ==>
              code == if !c.socket then DiscoverySocket else if !c.bind then DiscoveryBind
                      else if !c.alloc then DiscoveryAlloc
                      else if !AllAnswered(c.queries) then DiscoveryRecvmsg else DiscoveryOk
  {
    if !c.socket {
      return DiscoverySocket, [];
    }
    if !c.bind {
      return DiscoveryBind, [];
    }
    if !c.alloc {
      return DiscoveryAlloc, [];
    }
    var l := new ProcessList();
    var ok := RunQueries(l, c.queries);
    if !ok {
      return DiscoveryRecvmsg, [];
    }
    return DiscoveryOk, l.processes[..l.count];
  }

  ghost predicate AllAnswered(queries: seq<Query>) { forall i :: 0 <= i < |queries| ==> Answered(queries[i]) }

  lemma {:induction false} ObservedOwners(reports: seq<Report>, tcp: bool)
    ensures forall i :: 0 <= i < |Observed(reports, tcp)| ==> Observed(reports, tcp)[i].pid > 0
  {
    if reports != [] {
      ObservedOwners(reports[..|reports| - 1], tcp);
    }
  }

  lemma {:induction false} AllOwners(queries: seq<Query>, n: nat)
    requires n <= |queries|
    ensures forall i :: 0 <= i < |ObservedIn(queries, n)| ==> ObservedIn(queries, n)[i].pid > 0
  {
    if n > 0 {
      AllOwners(queries, n - 1);
      ObservedOwners(queries[n - 1].reports, n - 1 < 2);
    }
  }

  // ---- what the list says of the sockets ------------------------------------------------

  /** The report is of a socket of this process, and its user is root or an ordinary one. */
  ghost predicate Belongs(r: Report, pid: int) { r.owner == pid > 0 && (r.uid == 0 || r.uid >= 1000) }

  ghost function Mine(reports: seq<Report>, pid: int): set<nat> {
    set i: nat | i < |reports| && Belongs(reports[i], pid)
  }

  lemma {:induction false} OccurrencesConcat(a: seq<Observation>, b: seq<Observation>, pid: int)
    ensures Occurrences(a + b, pid) == Occurrences(a, pid) + Occurrences(b, pid)
  {
    if b == [] {
      assert a + b == a;
    } else {
      var n := |b| - 1;
      OccurrencesConcat(a, b[..n], pid);
      assert (a + b)[..|a + b| - 1] == a + b[..n];
    }
  }

  lemma {:induction false} SawSome(obs: seq<Observation>, pid: int)
    ensures Occurrences(obs, pid) > 0 <==> Saw(obs, pid, true) || Saw(obs, pid, false)
  {
    if obs != [] {
      var n := |obs| - 1;
      SawSome(obs[..n], pid);
      assert obs == obs[..n] + [obs[n]];
      SawOneMore(obs[..n], obs[n], pid, true);
      SawOneMore(obs[..n], obs[n], pid, false);
    }
  }

  lemma {:induction false} CountedInReports(reports: seq<Report>, tcp: bool, pid: int)
    ensures Occurrences(Observed(reports, tcp), pid) == |Mine(reports, pid)|
  {
    if reports != [] {
      var n := |reports| - 1;
      var init := reports[..n];
      CountedInReports(init, tcp, pid);
      OccurrencesConcat(Observed(init, tcp), if Counted(reports[n]) then [ObservationOf(reports[n], tcp)] else [], pid);
      OccursOnce(ObservationOf(reports[n], tcp), pid);
      assert Mine(reports, pid) == Mine(init, pid) + if Belongs(reports[n], pid) then {n} else {};
    } else {
      assert Mine(reports, pid) == {};
    }
  }

  lemma OccursOnce(o: Observation, pid: int)
    ensures Occurrences([o], pid) == (if o.pid == pid then 1 else 0) && Occurrences([], pid) == 0
  {
    assert [o][..0] == [];
  }

  /** The sockets of a process among the first `n` queries, and among those of one protocol. */
  ghost function Sockets(queries: seq<Query>, n: nat, pid: int): nat
    requires n <= |queries|
  {
    if n == 0 then 0 else Sockets(queries, n - 1, pid) + |Mine(queries[n - 1].reports, pid)|
  }

  lemma {:induction false} CountedInQueries(queries: seq<Query>, n: nat, pid: int)
    requires n <= |queries|
    ensures Occurrences(ObservedIn(queries, n), pid) == Sockets(queries, n, pid)
  {
    if n > 0 {
      CountedInQueries(queries, n - 1, pid);
      CountedInReports(queries[n - 1].reports, n - 1 < 2, pid);
      OccurrencesConcat(ObservedIn(queries, n - 1), Observed(queries[n - 1].reports, n - 1 < 2), pid);
    }
  }

  lemma SawConcat(a: seq<Observation>, b: seq<Observation>, pid: int, tcp: bool)
    ensures Saw(a + b, pid, tcp) <==> Saw(a, pid, tcp) || Saw(b, pid, tcp)
  {
    var all := a + b;
    if Saw(a, pid, tcp) {
      var k :| 0 <= k < |a| && a[k].pid == pid && a[k].tcp == tcp;
      assert all[k] == a[k];
    }
    if Saw(b, pid, tcp) {
      var k :| 0 <= k < |b| && b[k].pid == pid && b[k].tcp == tcp;
      assert all[|a| + k] == b[k];
    }
  }

  lemma {:induction false} OneProtocol(reports: seq<Report>, tcp: bool)
    ensures forall k :: 0 <= k < |Observed(reports, tcp)| ==> Observed(reports, tcp)[k].tcp == tcp
  {
    if reports != [] {
      OneProtocol(reports[..|reports| - 1], tcp);
    }
  }

  lemma SawInReports(reports: seq<Report>, of: bool, pid: int, tcp: bool)
    ensures Saw(Observed(reports, of), pid, tcp) <==> tcp == of && Mine(reports, pid) != {}
  {
    OneProtocol(reports, of);
    SawSome(Observed(reports, of), pid);
    CountedInReports(reports, of, pid);
  }

  /** Some query of the protocol, the first two for TCP and the others for UDP, reported a socket of
      the process. */
  ghost predicate Uses(queries: seq<Query>, n: nat, pid: int, tcp: bool)
    requires n <= |queries|
  {
    exists q :: 0 <= q < n && (tcp <==> q == 0 || q == 1) && Mine(queries[q].reports, pid) != {}
  }

  lemma {:induction false} SawInQueries(queries: seq<Query>, n: nat, pid: int, tcp: bool)
    requires n <= |queries|
    ensures Saw(ObservedIn(queries, n), pid, tcp) <==> Uses(queries, n, pid, tcp)
  {
    if n > 0 {
      SawInQueries(queries, n - 1, pid, tcp);
      SawInReports(queries[n - 1].reports, n - 1 < 2, pid, tcp);
      SawConcat(ObservedIn(queries, n - 1), Observed(queries[n - 1].reports, n - 1 < 2), pid, tcp);
    }
  }

  /** Every entry of the list, in terms of the sockets reported: its connections are the sockets of
      that process, and its flags say which protocols they were of. */
  lemma ListMeans(queries: seq<Query>, i: nat)
    requires i < |Aggregate(ObservedIn(queries, |queries|))|
    ensures var e, n := Aggregate(ObservedIn(queries, |queries|))[i], |queries|;
            && e.connections == Sockets(queries, n, e.pid) > 0
            && (e.tcp <==> Uses(queries, n, e.pid, true)) && (e.udp <==> Uses(queries, n, e.pid, false))
            && (e.tcp || e.udp)
  {
    var obs := ObservedIn(queries, |queries|);
    var first := AggregateMeans(obs);
    var e := Aggregate(obs)[i];
    assert Describes(e, obs, first[i]);
    CountedInQueries(queries, |queries|, e.pid);
    SawInQueries(queries, |queries|, e.pid, true);
    SawInQueries(queries, |queries|, e.pid, false);
    SawSome(obs, e.pid);
    assert Saw(obs, e.pid, obs[first[i]].tcp);
  }

  /** And every process with a socket reported has an entry. */
  lemma ListCovers(queries: seq<Query>, pid: int)
    requires Sockets(queries, |queries|, pid) > 0
    ensures exists i :: 0 <= i < |Aggregate(ObservedIn(queries, |queries|))| && Aggregate(ObservedIn(queries, |queries|))[i].pid == pid
  {
    var obs := ObservedIn(queries, |queries|);
    var first := AggregateMeans(obs);
    CountedInQueries(queries, |queries|, pid);
    SawSome(obs, pid);
    var k :| 0 <= k < |obs| && obs[k].pid == pid;
    assert Aggregate(obs)[Find(Aggregate(obs), obs[k].pid)].pid == pid;
  }
}
