/** The window and its helper over their two pipes: refresh, edit a limit, clean.  The list store
    is a cache of the limits in the kernel. */
module Gui {
  import opened Text
  import opened TokenBucket
  import opened Kernel
  import opened RateLimit
  import opened Discovery
  import opened Protocol

  // ---- the text of a limit --------------------------------------------------------------

  /** `set_entry_to_value`. */
  function LimitText(kbps: Word32): string { if kbps == UNLIMITED then "" else Decimal(kbps) }

  /** `parse_limit_value`. */
  function ParseLimitValue(text: string): Option<Word32> {
    if text == "" || text == "-" || text == "-1" then Some(UNLIMITED)
    else match ScanInt(text)
      case NoMatch => None
      case Number(v, rest) =>
        if rest != "" || v < 0 then None else if v >= UNLIMITED then Some(UNLIMITED - 1) else Some(v)
  }

  /** What an entry shows is read back as the same limit. */
  lemma LimitTextRoundTrip(kbps: Word32)
    ensures ParseLimitValue(LimitText(kbps)) == Some(kbps)
  {
    if kbps != UNLIMITED {
      ScanDecimal(kbps, "");
      assert Decimal(kbps) + "" == Decimal(kbps);
      assert IsDigit(Decimal(kbps)[0]);
    }
  }

  /** Only the three agreed texts mean unlimited; no number, however large, does. */
  lemma UnlimitedTexts(text: string)
    ensures ParseLimitValue(text) == Some(UNLIMITED) <==> text == "" || text == "-" || text == "-1"
  {}

  /** `g_strstrip`. */
  function Strip(s: string): string { StripEnd(SkipSpace(s)) }

  function StripEnd(s: string): string {
    if s != [] && IsSpace(s[|s| - 1]) then StripEnd(s[..|s| - 1]) else s
  }

  lemma {:induction false} StripEndMeans(s: string)
    ensures var t := StripEnd(s);
            && t <= s && (forall i :: |t| <= i < |s| ==> IsSpace(s[i])) && (t != "" ==> !IsSpace(t[|t| - 1]))
  {
    if s != [] && IsSpace(s[|s| - 1]) {
      StripEndMeans(s[..|s| - 1]);
    }
  }

  /** Stripping cuts the white space off both ends, all of it and nothing else. */
  lemma StripMeans(s: string) returns (a: nat, b: nat)
    ensures a <= b <= |s| && Strip(s) == s[a..b]
    ensures (forall i :: 0 <= i < a ==> IsSpace(s[i])) && (forall i :: b <= i < |s| ==> IsSpace(s[i]))
    ensures Strip(s) != "" ==> !IsSpace(s[a]) && !IsSpace(s[b - 1])
  {
    SkipSpaceMeans(s);
    var t := SkipSpace(s);
    StripEndMeans(t);
    a, b := |s| - |t|, |s| - |t| + |Strip(s)|;
    assert forall i :: a <= i < |s| ==> s[i] == t[i - a];
  }

  /** Which texts are refused as a limit: all but the three for unlimited and those that are a number
      to their end and not below zero. */
  lemma RefusedIff(text: string)
    ensures var m := Magnitude(text);
            ParseLimitValue(text).None? <==>
              && text != "" && text != "-" && text != "-1"
              && !(m != "" && AllDigits(m) && !(Negative(text) && exists i :: 0 <= i < |m| && m[i] != '0'))
  {
    WholeNumberIff(text);
  }

  /** Every number is taken at its value, up to the largest real limit. */
  lemma LimitClamped(n: nat)
    ensures ParseLimitValue(Decimal(n)) == Some(if n < UNLIMITED then n else UNLIMITED - 1)
  {
    ScanDecimal(n, "");
    assert Decimal(n) + "" == Decimal(n);
    assert IsDigit(Decimal(n)[0]);
  }

  // ---- commands -------------------------------------------------------------------------

  const CMD_LIST := 0
  const CMD_LIMIT := 1
  const CMD_CLEAN := 3
  const REPLY_OK := 1
  const REPLY_ERROR := 2

  function LimitCommand(pid: int, upload: Word32, download: Word32): string
    requires pid > 0
  {
    Spaced([CMD_LIMIT, pid, upload, download]) + "\n"
  }

  /** `fgets` with room for `room` characters: through the first newline, or a full buffer. */
  function FgetsLength(s: string, room: nat): (n: nat)
    ensures n <= |s| && n <= room && forall i :: 0 <= i < n - 1 ==> s[i] != '\n'
    ensures n < |s| && n < room ==> n > 0 && s[n - 1] == '\n'
  {
    if s == [] || room == 0 then 0
    else if s[0] == '\n' then 1
    else
      assert forall i :: 1 <= i < |s| ==> s[i] == s[1..][i - 1];
      1 + FgetsLength(s[1..], room - 1)
  }

  /** `"%*ld %ld %ld %ld"` and the range checks. */
  function ParseLimitCommand(line: string): Option<(int, Word32, Word32)> {
    match ScanNumbers(line, 4)
    case Mismatch => None
    case Numbers(v, _) =>
      if |v| == 4 && 0 < v[1] <= INT_MAX && 0 <= v[2] <= UNLIMITED && 0 <= v[3] <= UNLIMITED
      then Some((v[1], v[2], v[3])) else None
  }

  lemma {:induction false} FgetsWholeLine(line: string, room: nat)
    requires '\n' !in line && |line| < room
    ensures FgetsLength(line + "\n", room) == |line| + 1
  {
    if line != [] {
      assert (line + "\n")[1..] == line[1..] + "\n";
      FgetsWholeLine(line[1..], room - 1);
    }
  }

  /** Every limit command fits the helper's 64-byte buffer whole and is read back as it was meant. */
  lemma LimitCommandRoundTrip(pid: int, upload: Word32, download: Word32)
    requires 0 < pid <= INT_MAX
    ensures var text := LimitCommand(pid, upload, download);
            && FgetsLength(text, 63) == |text|
            && ScanInt(text).Number? && ScanInt(text).value == CMD_LIMIT
            && ParseLimitCommand(text) == Some((pid, upload, download))
  {
    var ns := [CMD_LIMIT, pid, upload, download];
    assert Pow10(10) == 10_000_000_000;
    SpacedLength(ns, 10);
    assert '\n' !in Spaced(ns);
    FgetsWholeLine(Spaced(ns), 63);
    ScanSpaced(ns, "\n");
  }

  /** The commands as they stand on the wire. */
  lemma CommandFormat(pid: int, upload: Word32, download: Word32)
    requires pid > 0
    ensures ScanNumbers(LimitCommand(pid, upload, download), 4) == Numbers([1, pid, upload, download], "\n")
    ensures Decimal(CMD_LIST) + "\n" == "0\n" && Decimal(CMD_CLEAN) + "\n" == "3\n" && Answer(true) == "1\n" && Answer(false) == "2\n"
  {
    ScanSpaced([CMD_LIMIT, pid, upload, download], "\n");
  }

  /** A limit command is taken exactly when every number is in its range. */
  lemma LimitCommandIff(cmd: nat, pid: nat, upload: nat, download: nat, rest: string)
    requires !StartsWithDigit(rest)
    ensures var r := ParseLimitCommand(Spaced([cmd, pid, upload, download]) + rest);
            if 0 < pid <= INT_MAX && upload <= UNLIMITED && download <= UNLIMITED
            then r.Some? && r.value.0 == pid && r.value.1 == upload && r.value.2 == download else r.None?
  {
    ScanSpaced([cmd, pid, upload, download], rest);
  }

  lemma SimpleCommandRoundTrip(cmd: nat)
    requires cmd < 10
    ensures FgetsLength(Decimal(cmd) + "\n", 63) == |Decimal(cmd) + "\n"|
    ensures ScanInt(Decimal(cmd) + "\n") == Number(cmd, "\n")
  {
    assert '\n' !in Decimal(cmd);
    FgetsWholeLine(Decimal(cmd), 63);
    ScanDecimal(cmd, "\n");
  }

  lemma ReplyRead(reply: nat)
    requires reply <= INT_MAX
    ensures LineLength(Decimal(reply) + "\n") == |Decimal(reply) + "\n"| && ProtocolInt(Decimal(reply) + "\n") == reply
  {
    CountLine(reply, "", false);
    assert Decimal(reply) + "\n" + "" == Decimal(reply) + "\n";
  }

  // ---- what a listing shows -------------------------------------------------------------

  function Listing(k: KernelState, procs: seq<ProcessInfo>): seq<Listed> {
    seq(|procs|, i requires 0 <= i < |procs| =>
      Listed(procs[i], GetLimits(k, procs[i].pid).0, GetLimits(k, procs[i].pid).1))
  }

  /** A list of processes that discovery can produce, without paragraph separators. */
  ghost predicate GoodList(procs: seq<ProcessInfo>) {
    && 2 * |procs| <= INT_MAX
    && (forall i :: 0 <= i < |procs| ==>
          procs[i].pid > 0 && procs[i].connections >= 0 && Sanitised(procs[i]) && NoParagraph(procs[i]))
    && (forall i, j :: 0 <= i < j < |procs| ==> procs[i].pid != procs[j].pid)
  }

  ghost predicate Agrees(k: KernelState, r: Row) { (r.upload, r.download) == GetLimits(k, r.pid) }

  ghost predicate Coherent(k: KernelState, store: seq<Row>) {
    && (forall i :: 0 <= i < |store| ==> Agrees(k, store[i]))
    && (forall i, j :: 0 <= i < j < |store| ==> store[i].pid != store[j].pid)
  }

  /** Rows of a view come from listed processes. */
  lemma {:induction false} ViewFrom(ls: seq<Listed>, i: nat) returns (j: nat)
    requires i < |View(ls)|
    ensures j < |ls| && View(ls)[i].pid == ls[j].proc.pid
    ensures View(ls)[i].upload == ls[j].upload && View(ls)[i].download == ls[j].download
  {
    var n := |RowFor(ls[0])|;
    if i < n {
      j := 0;
    } else {
      j := ViewFrom(ls[1..], i - n);
      j := j + 1;
    }
  }

  lemma {:induction false} ViewDistinct(ls: seq<Listed>)
    requires forall i, j :: 0 <= i < j < |ls| ==> ls[i].proc.pid != ls[j].proc.pid
    ensures forall i, j :: 0 <= i < j < |View(ls)| ==> View(ls)[i].pid != View(ls)[j].pid
  {
    if ls != [] {
      ViewDistinct(ls[1..]);
      var n, v := |RowFor(ls[0])|, View(ls);
      forall i, j | 0 <= i < j < |v| ensures v[i].pid != v[j].pid {
        assert v[j] == View(ls[1..])[j - n];
        if i < n {
          var m := ViewFrom(ls[1..], j - n);
          assert ls[m + 1] == ls[1..][m];
        } else {
          assert v[i] == View(ls[1..])[i - n];
        }
      }
    }
  }

  /** A fresh view agrees with the kernel it was listed from. */
  lemma ViewCoherent(k: KernelState, procs: seq<ProcessInfo>)
    requires GoodList(procs)
    ensures Coherent(k, View(Listing(k, procs)))
  {
    var ls := Listing(k, procs);
    ViewDistinct(ls);
    forall i | 0 <= i < |View(ls)| ensures Agrees(k, View(ls)[i]) {
      var j := ViewFrom(ls, i);
    }
  }

  /** Whatever the queries report, the list discovery makes of it is fit to be listed, paragraph
      separators aside. */
  lemma DiscoveryIsGood(queries: seq<Query>)
    requires 2 * |Aggregate(ObservedIn(queries, |queries|))| <= INT_MAX
    requires forall i :: 0 <= i < |Aggregate(ObservedIn(queries, |queries|))| ==> NoParagraph(Aggregate(ObservedIn(queries, |queries|))[i])
    ensures GoodList(Aggregate(ObservedIn(queries, |queries|)))
  {
    AllOwners(queries, |queries|);
    AggregateIsGood(ObservedIn(queries, |queries|));
  }

  lemma AggregateIsGood(obs: seq<Observation>)
    requires forall i :: 0 <= i < |obs| ==> obs[i].pid > 0
    requires 2 * |Aggregate(obs)| <= INT_MAX && forall i :: 0 <= i < |Aggregate(obs)| ==> NoParagraph(Aggregate(obs)[i])
    ensures GoodList(Aggregate(obs))
  {
    var first := AggregateMeans(obs);
    DistinctPids(obs);
    var a := Aggregate(obs);
    forall i | 0 <= i < |a| ensures a[i].pid > 0 && a[i].connections >= 0 && Sanitised(a[i]) {
      assert Describes(a[i], obs, first[i]);
    }
  }

  // ---- the session ----------------------------------------------------------------------

  /** Outcomes of the calls the helper makes while serving one command. */
  datatype HelperCalls = HelperCalls(
    discovered: Option<seq<ProcessInfo>>, setting: SetCalls, unset: DeleteCalls,
    walk: seq<Entry>, deletes: seq<DeleteCalls>, clean: CleanCalls)

  /** What discovery guarantees of the list, and one outcome per walked entry. */
  ghost predicate Plausible(c: HelperCalls) {
    && |c.deletes| == |c.walk|
    && (c.discovered.Some? ==> ListableProcs(c.discovered.value))
  }

  ghost predicate ListableProcs(procs: seq<ProcessInfo>) {
    forall i :: 0 <= i < |procs| ==> procs[i].pid > 0 && procs[i].connections >= 0
  }

  ghost predicate NothingInForce(k: KernelState, pid: int) {
    SlotOf(k, pid, Upload).limit.None? && SlotOf(k, pid, Download).limit.None?
  }

  /** An OK answer to a limit command means what it says. */
  ghost predicate Faithful(k: KernelState, pid: int, upload: Word32, download: Word32, c: HelperCalls) {
    if upload == UNLIMITED && download == UNLIMITED then
      NothingInForce(k, pid) || (c.unset.getCgroup && c.unset.openFd && (c.unset.delete || AllGone(k, pid, c.unset.detach)))
    else StaleGone(k, pid, Config(upload, download), c.setting)
  }

  lemma NothingMeansUnlimited(k: KernelState, pid: int)
    requires Inv(k)
    ensures GetLimits(k, pid) == (UNLIMITED, UNLIMITED) <==> NothingInForce(k, pid)
    ensures !HasCgroup(k, pid) ==> NothingInForce(k, pid)
  {
    GetIsSlots(k, pid);
    LimitsAreReal(k, pid, Upload);
    LimitsAreReal(k, pid, Download);
    LimitNeedsCgroup(k, pid, Upload);
    LimitNeedsCgroup(k, pid, Download);
  }

  /** When a limit command is answered OK: an unset unless its cgroup handle could not be made,
      whether or not there was a limit; a set exactly when it succeeds. */
  ghost predicate Accepted(k: KernelState, pid: int, upload: Word32, download: Word32, c: HelperCalls) {
    if upload == UNLIMITED && download == UNLIMITED then c.unset.newCgroup
    else SetSucceeds(k, pid, Config(upload, download), c.setting)
  }

  /** What a limit command has the helper tell the monitor. */
  function ToMonitor(pid: int, upload: Word32, download: Word32, ok: bool): seq<Message> {
    if upload == UNLIMITED && download == UNLIMITED then [UnwatchPid(pid)] else if ok then [WatchPid(pid)] else []
  }

  class Helper {
    const limiter: RateLimiter

    constructor (limiter: RateLimiter)
      ensures this.limiter == limiter
    {
      this.limiter := limiter;
    }

    /** `handle_list_cmd`. */
    method HandleList(discovered: Option<seq<ProcessInfo>>) returns (output: string)
      requires discovered.Some? ==> ListableProcs(discovered.value)
      ensures output == if discovered.None? then Decimal(REPLY_ERROR) + "\n" else ListReply(Listing(limiter.kernel, discovered.value))
    {
      if discovered.None? {
        return Decimal(REPLY_ERROR) + "\n";
      }
      var ls := Listing(limiter.kernel, discovered.value);
      output := Decimal(|ls|) + "\n";
      var rows := "";
      var i := 0;
      while i < |ls|
        invariant 0 <= i <= |ls|
        invariant rows + Join(LinesOf(ls[i..])) == Join(LinesOf(ls))
      {
        PrintOne(rows, ls[i..]);
        rows := rows + Header(ls[i]) + "\n" + ls[i].proc.exePath + "\n";
        assert ls[i..][1..] == ls[i + 1..];
        i := i + 1;
      }
      assert rows + "" == rows;
      output := output + rows;
    }

    /** `handle_limit_cmd`. */
    method HandleLimit(line: string, c: HelperCalls) returns (output: string)
      requires Inv(limiter.kernel)
      modifies limiter
      ensures Inv(limiter.kernel)
      ensures output == Decimal(REPLY_OK) + "\n" || output == Decimal(REPLY_ERROR) + "\n"
      ensures ParseLimitCommand(line).None? ==> output == Decimal(REPLY_ERROR) + "\n" && unchanged(limiter)
      ensures ParseLimitCommand(line).Some? ==>
                var (pid, upload, download) := ParseLimitCommand(line).value;
                && SameElsewhere(old(limiter.kernel), limiter.kernel, pid)
                && limiter.sent == old(limiter.sent) + ToMonitor(pid, upload, download, output == Decimal(REPLY_OK) + "\n")
                && (output == Decimal(REPLY_OK) + "\n" <==> Accepted(old(limiter.kernel), pid, upload, download, c))
                && (output == Decimal(REPLY_OK) + "\n" ==>
                      (GetLimits(limiter.kernel, pid) == (upload, download) <==>
                         Faithful(old(limiter.kernel), pid, upload, download, c)))
    {
      assert (Decimal(REPLY_OK) + "\n")[0] != (Decimal(REPLY_ERROR) + "\n")[0];
      var parsed := ParseLimitCommand(line);
      if parsed.None? {
        return Decimal(REPLY_ERROR) + "\n";
      }
      var (pid, upload, download) := parsed.value;
      var rc;
      if upload == UNLIMITED && download == UNLIMITED {
        rc := Unset(pid, c);
      } else {
        rc := limiter.LimitProcessBandwidth(pid, Config(upload, download), c.setting);
      }
      output := Decimal(if rc.Ok? then REPLY_OK else REPLY_ERROR) + "\n";
    }

    /** Both directions unlimited: `unregister_rate_limiter_by_pid`, where removing a limit that is
        not there counts as done. */
    method Unset(pid: int, c: HelperCalls) returns (rc: Code)
      requires Inv(limiter.kernel)
      modifies limiter
      ensures Inv(limiter.kernel) && SameElsewhere(old(limiter.kernel), limiter.kernel, pid)
      ensures limiter.sent == old(limiter.sent) + [UnwatchPid(pid)]
      ensures rc.Ok? <==> c.unset.newCgroup
      ensures rc.Ok? ==> (GetLimits(limiter.kernel, pid) == (UNLIMITED, UNLIMITED) <==>
                            Faithful(old(limiter.kernel), pid, UNLIMITED, UNLIMITED, c))
    {
      NothingMeansUnlimited(limiter.kernel, pid);
      limiter.sent := limiter.sent + [UnwatchPid(pid)];
      rc := limiter.DeletePidCgroup(pid, c.unset);
      NothingMeansUnlimited(limiter.kernel, pid);
      if rc == CgroupNotFound {
        rc := Ok;
      }
    }
  }

  lemma PrintOne(rows: string, ls: seq<Listed>)
    requires ls != [] && AllListable(ls)
    ensures rows + Join(LinesOf(ls))
         == rows + Header(ls[0]) + "\n" + ls[0].proc.exePath + "\n" + Join(LinesOf(ls[1..]))
  {
    assert LinesOf(ls) == [Header(ls[0]), ls[0].proc.exePath] + LinesOf(ls[1..]);
    JoinTwo(rows, Header(ls[0]), ls[0].proc.exePath, LinesOf(ls[1..]));
  }

  lemma JoinTwo(rows: string, h: string, e: string, more: seq<string>)
    ensures rows + Join([h, e] + more) == rows + h + "\n" + e + "\n" + Join(more)
  {
    assert ([h, e] + more)[1..] == [e] + more && ([e] + more)[1..] == more;
    assert Join([h, e] + more) == h + "\n" + (e + "\n" + Join(more));
  }

  /** The window: its end of the two pipes, and its list store. */
  class Window {
    const helper: Helper
    var toHelper: string
    var toWindow: string
    var store: seq<Row>

    /** Both pipes drained, and the kernel in order. */
    ghost predicate InStep()
      reads this, helper.limiter
    {
      toHelper == "" && toWindow == "" && Inv(helper.limiter.kernel)
    }

    ghost predicate CacheAgrees()
      reads this, helper.limiter
    {
      Coherent(helper.limiter.kernel, store)
    }

    constructor (helper: Helper)
      requires Inv(helper.limiter.kernel)
      ensures this.helper == helper && InStep() && CacheAgrees()
    {
      this.helper := helper;
      toHelper, toWindow, store := "", "", [];
    }

    /** One turn of the helper's command loop: `fgets`, dispatch, reply. */
    method HelperTurn(c: HelperCalls)
      requires Inv(helper.limiter.kernel) && Plausible(c)
      modifies this, helper.limiter
      ensures store == old(store) && Inv(helper.limiter.kernel)
      ensures toHelper == old(toHelper[FgetsLength(toHelper, 63)..])
      ensures Replies(old(toHelper[..FgetsLength(toHelper, 63)]), c, old(helper.limiter.kernel), helper.limiter.kernel,
                      old(toWindow), toWindow)
    {
      var n := FgetsLength(toHelper, 63);
      var line := toHelper[..n];
      toHelper := toHelper[n..];
      var cmd := ScanInt(line);
      if cmd.NoMatch? {
        return;
      }
      if cmd.value == CMD_LIST {
        var out := helper.HandleList(c.discovered);
        toWindow := toWindow + out;
      } else if cmd.value == CMD_LIMIT {
        var out := helper.HandleLimit(line, c);
        toWindow := toWindow + out;
      } else if cmd.value == CMD_CLEAN {
        var rc := helper.limiter.CleanupAll(c.walk, c.deletes, c.clean);
        toWindow := toWindow + Answer(rc.Ok?);
      }
    }

    /** A command is written and served. */
    method Exchange(text: string, c: HelperCalls)
      requires InStep() && Plausible(c) && FgetsLength(text, 63) == |text|
      modifies this, helper.limiter
      ensures toHelper == "" && store == old(store) && Inv(helper.limiter.kernel)
      ensures Replies(text, c, old(helper.limiter.kernel), helper.limiter.kernel, "", toWindow)
    {
      toHelper := toHelper + text;
      assert toHelper == text && text[..|text|] == text && text[|text|..] == "";
      HelperTurn(c);
    }

    /** The one-line answer to a limit or clean command. */
    method ReadAnswer() returns (ok: bool)
      requires exists b :: toWindow == Answer(b)
      modifies this
      ensures toWindow == "" && toHelper == old(toHelper) && store == old(store)
      ensures old(toWindow) == Answer(ok)
    {
      ghost var b :| toWindow == Answer(b);
      ReplyRead(if b then REPLY_OK else REPLY_ERROR);
      var n := LineLength(toWindow);
      var line := toWindow[..n];
      toWindow := toWindow[n..];
      assert line == Answer(b) && toWindow == "";
      ok := ProtocolInt(line) == REPLY_OK;
    }

    /** `backend_set_limit`. */
    method SetLimit(pid: int, upload: Word32, download: Word32, c: HelperCalls) returns (ok: bool)
      requires InStep() && 0 < pid <= INT_MAX && Plausible(c)
      modifies this, helper.limiter
      ensures InStep() && store == old(store)
      ensures SameElsewhere(old(helper.limiter.kernel), helper.limiter.kernel, pid)
      ensures ok <==> Accepted(old(helper.limiter.kernel), pid, upload, download, c)
      ensures ok ==> (GetLimits(helper.limiter.kernel, pid) == (upload, download) <==>
                        Faithful(old(helper.limiter.kernel), pid, upload, download, c))
    {
      var text := LimitCommand(pid, upload, download);
      LimitCommandRoundTrip(pid, upload, download);
      Exchange(text, c);
      AnswersDiffer();
      assert toWindow == Answer(true) || toWindow == Answer(false);
      ok := ReadAnswer();
    }

    /** `backend_list` and `populate_store_from_raw`: refresh.  The rows are those of the processes
        discovered, in order, with the limits in force, and the pipes are drained.  When discovery
        fails the call never returns: it waits for the rows of a list of two. */
    method Refresh(c: HelperCalls) returns (done: bool)
      requires InStep() && Plausible(c) && (c.discovered.Some? ==> GoodList(c.discovered.value))
      modifies this, helper.limiter
      ensures done <==> c.discovered.Some?
      ensures done ==> InStep() && CacheAgrees()
      ensures done ==> store == View(Listing(helper.limiter.kernel, c.discovered.value))
      ensures helper.limiter.kernel == old(helper.limiter.kernel)
    {
      ghost var k := helper.limiter.kernel;
      var text := Decimal(CMD_LIST) + "\n";
      SimpleCommandRoundTrip(CMD_LIST);
      Exchange(text, c);
      if c.discovered.Some? {
        ListingFits(k, c.discovered.value);
        assert "" + ListReply(Listing(k, c.discovered.value)) == ListReply(Listing(k, c.discovered.value));
        ViewCoherent(k, c.discovered.value);
      } else {
        AnswersDiffer();
        ErrorHangs();
      }
      done := LoadListing(if c.discovered.Some? then Some(Listing(k, c.discovered.value)) else None);
    }

    /** `backend_list` reads the reply and `populate_store_from_raw` fills the store from it. */
    method LoadListing(ghost ls: Option<seq<Listed>>) returns (done: bool)
      requires ls.Some? ==> Fits(ls.value) && toWindow == ListReply(ls.value)
      requires ls.None? ==> ReadList(toWindow, false).Waiting?
      modifies this
      ensures done <==> ls.Some?
      ensures done ==> toWindow == "" && toHelper == old(toHelper) && store == View(ls.value)
    {
      if ls.Some? {
        ReplyLoads(ls.value);
      }
      var r := BackendList(toWindow, false);
      if r.Waiting? {
        return false;
      }
      toWindow := r.left;
      if r.raw.Some? {
        store := PopulateStoreFromRaw(r.raw.value);
      }
      return true;
    }

    /** `find_process_by_pid`: the first row of that PID, or -1. */
    method FindProcessByPid(pid: int) returns (k: int)
      ensures k == RowOf(store, pid)
    {
      var i := 0;
      while i < |store|
        invariant 0 <= i <= |store| && RowOf(store, pid) == (if RowOf(store[i..], pid) < 0 then -1 else i + RowOf(store[i..], pid))
      {
        assert store[i..][1..] == store[i + 1..];
        if store[i].pid == pid {
          return i;
        }
        i := i + 1;
      }
      return -1;
    }

    /** `apply_limit`: the entry's text becomes a limit command for the row's PID; `shown` is what
        the entry displays afterwards.  When the answer is OK, and truly so, a store that agreed
        with the kernel still does; on bad text or an error answer the store is left alone. */
    method ApplyLimit(pid: int, d: Direction, text: string, c: HelperCalls) returns (ok: bool, shown: string)
      requires InStep() && pid <= INT_MAX && Plausible(c)
      modifies this, helper.limiter
      ensures InStep()
      ensures ok <==> Sends(pid, text) && Accepted(old(helper.limiter.kernel), pid, Requested(old(store), pid, d, text).0,
                                                   Requested(old(store), pid, d, text).1, c)
      ensures !ok ==> store == old(store)
      ensures ok ==> RowEdited(old(store), store, pid, d, ParseLimitValue(Strip(text)).value)
      ensures pid <= 0 ==> shown == text
      ensures pid <= 0 || ParseLimitValue(Strip(text)).None? ==> !ok && helper.limiter.kernel == old(helper.limiter.kernel)
      ensures pid > 0 && !ok ==> shown == LimitText(Current(old(store), pid, d))
      ensures forall q :: q != pid ==> GetLimits(helper.limiter.kernel, q) == GetLimits(old(helper.limiter.kernel), q)
      ensures ok ==> shown == LimitText(ParseLimitValue(Strip(text)).value)
      ensures ok && Faithful(old(helper.limiter.kernel), pid, Requested(old(store), pid, d, text).0, Requested(old(store), pid, d, text).1, c)
              ==> GetLimits(helper.limiter.kernel, pid) == Requested(old(store), pid, d, text) && (old(CacheAgrees()) ==> CacheAgrees())
    {
      if pid <= 0 {
        return false, text;
      }
      ghost var k := helper.limiter.kernel;
      var r := FindProcessByPid(pid);
      var upload, download := UNLIMITED, UNLIMITED;
      if r >= 0 {
        upload, download := store[r].upload, store[r].download;
      }
      var current := if d == Upload then upload else download;
      var value := ParseLimitValue(Strip(text));
      if value.None? {
        return false, LimitText(current);
      }
      if d == Upload {
        upload := value.value;
      } else {
        download := value.value;
      }
      ok := SetLimit(pid, upload, download, c);
      forall q | q != pid ensures GetLimits(helper.limiter.kernel, q) == GetLimits(k, q) {
        GetElsewhere(k, helper.limiter.kernel, pid, q);
      }
      if !ok {
        return false, LimitText(current);
      }
      if GetLimits(helper.limiter.kernel, pid) == (upload, download) && Coherent(k, store) {
        EditCoherent(k, helper.limiter.kernel, store, pid, d, upload, download);
      }
      if r >= 0 {
        store := store[r := Edited(store[r], d, upload, download)];
      }
      shown := LimitText(value.value);
    }

    /** `backend_clean`, and a refresh if it was answered OK. */
    method Clean(c: HelperCalls, after: HelperCalls) returns (ok: bool, done: bool)
      requires InStep() && Plausible(c) && Plausible(after)
      requires after.discovered.Some? ==> GoodList(after.discovered.value)
      modifies this, helper.limiter
      ensures done <==> !ok || after.discovered.Some?
      ensures done ==> InStep()
      ensures CleanServed(old(helper.limiter.kernel), helper.limiter.kernel, c, ok)
      ensures ok && done ==> CacheAgrees() && store == View(Listing(helper.limiter.kernel, after.discovered.value))
      ensures ok && Walks(old(helper.limiter.kernel), c.clean) ==>
                forall pid :: GetLimits(helper.limiter.kernel, pid) == (UNLIMITED, UNLIMITED)
      ensures !ok ==> store == old(store)
    {
      var text := Decimal(CMD_CLEAN) + "\n";
      SimpleCommandRoundTrip(CMD_CLEAN);
      Exchange(text, c);
      AnswersDiffer();
      assert toWindow == Answer(true) || toWindow == Answer(false);
      ok := ReadAnswer();
      done := true;
      if ok {
        if helper.limiter.kernel.children == {} {
          forall pid ensures GetLimits(helper.limiter.kernel, pid) == (UNLIMITED, UNLIMITED) {
            CleanLeavesNoLimit(helper.limiter.kernel, pid);
          }
        }
        done := Refresh(after);
      }
    }

    /** The window's view of the present. */
    ghost function Now(): Moment
      reads this, helper.limiter
    {
      Moment(helper.limiter.kernel, store)
    }

    method Do(a: Action) returns (ok: bool, done: bool)
      requires InStep() && Feasible(a)
      modifies this, helper.limiter
      ensures done <==> !HangsOn(a, ok)
      ensures done ==> InStep() && Follows(old(Now()), a, ok, Now())
    {
      ghost var k := helper.limiter.kernel;
      match a
      case DoRefresh(c) =>
        done := Refresh(c);
        ok := done;
      case DoEdit(pid, d, text, c) =>
        var shown;
        ok, shown := ApplyLimit(pid, d, text, c);
        done := true;
      case DoClean(c, after) =>
        ok, done := Clean(c, after);
    }

    /** Any sequence of refreshes, edits and cleans.  As long as discovery succeeds both pipes are
        drained after each of them; `trace` is what the kernel and the store went through. */
    method Session(actions: seq<Action>) returns (oks: seq<bool>, done: bool, ghost trace: seq<Moment>)
      requires InStep() && forall i :: 0 <= i < |actions| ==> Feasible(actions[i])
      modifies this, helper.limiter
      ensures done ==> |oks| == |actions| && InStep() && Traced(trace, actions, oks, |actions|)
      ensures done ==> trace[0] == old(Now()) && trace[|actions|] == Now()
      ensures !done ==> 0 < |oks| <= |actions| && HangsOn(actions[|oks| - 1], oks[|oks| - 1])
      ensures done && Coherent(trace[0].kernel, trace[0].store) && Settled(trace, actions, oks, |actions|) ==> CacheAgrees()
    {
      oks, done, trace := [], true, [Now()];
      var i := 0;
      while i < |actions|
        invariant 0 <= i == |oks| <= |actions| && done && InStep()
        invariant Traced(trace, actions, oks, i) && trace[0] == old(Now()) && trace[i] == Now()
      {
        var ok;
        ok, done := Do(actions[i]);
        oks := oks + [ok];
        if !done {
          return;
        }
        TraceGrows(trace, actions, oks, i, Now());
        trace := trace + [Now()];
        i := i + 1;
      }
      if Coherent(trace[0].kernel, trace[0].store) && Settled(trace, actions, oks, |actions|) {
        SessionAgrees(trace, actions, oks, |actions|);
      }
    }
  }

  // ---- sequences of actions -------------------------------------------------------------

  datatype Action =
    | DoRefresh(c: HelperCalls)
    | DoEdit(pid: int, d: Direction, text: string, c: HelperCalls)
    | DoClean(c: HelperCalls, after: HelperCalls)

  /** The limits in the kernel and the rows in the window. */
  datatype Moment = Moment(kernel: KernelState, store: seq<Row>)

  /** What the calls can bring: lists discovery makes, free of paragraph separators. */
  ghost predicate Feasible(a: Action) {
    && Plausible(a.c)
    && (a.DoEdit? ==> a.pid <= INT_MAX)
    && (a.DoClean? ==> Plausible(a.after) && (a.after.discovered.Some? ==> GoodList(a.after.discovered.value)))
    && (a.DoRefresh? && a.c.discovered.Some? ==> GoodList(a.c.discovered.value))
  }

  /** The window waits for ever: its list command met a failing discovery. */
  predicate HangsOn(a: Action, ok: bool) {
    (a.DoRefresh? && a.c.discovered.None?) || (a.DoClean? && ok && a.after.discovered.None?)
  }

  /** An edit that is never sent, or is answered OK and truly so. */
  ghost predicate EditSettled(m: Moment, a: Action, ok: bool)
    requires a.DoEdit?
  {
    var want := Requested(m.store, a.pid, a.d, a.text);
    || !Sends(a.pid, a.text)
    || (ok && Faithful(m.kernel, a.pid, want.0, want.1, a.c))
  }

  /** What one action does to kernel and store. */
  ghost predicate Follows(m: Moment, a: Action, ok: bool, m': Moment) {
    && (a.DoRefresh? ==> a.c.discovered.Some? && m'.kernel == m.kernel && Fresh(m', a.c))
    && (a.DoClean? ==> CleanServed(m.kernel, m'.kernel, a.c, ok))
    && (a.DoClean? ==> if ok then a.after.discovered.Some? && Fresh(m', a.after) else m'.store == m.store)
    && (a.DoEdit? ==> EditFollows(m, a, ok, m'))
  }

  /** The edit is sent and answered OK. */
  ghost predicate EditAccepted(m: Moment, a: Action)
    requires a.DoEdit?
  {
    var want := Requested(m.store, a.pid, a.d, a.text);
    Sends(a.pid, a.text) && Accepted(m.kernel, a.pid, want.0, want.1, a.c)
  }

  ghost predicate EditFollows(m: Moment, a: Action, ok: bool, m': Moment)
    requires a.DoEdit?
  {
    && (ok <==> EditAccepted(m, a))
    && (if ok then RowEdited(m.store, m'.store, a.pid, a.d, ParseLimitValue(Strip(a.text)).value) else m'.store == m.store)
    && (!Sends(a.pid, a.text) ==> m'.kernel == m.kernel)
    && (forall q :: q != a.pid ==> GetLimits(m'.kernel, q) == GetLimits(m.kernel, q))
    && (EditSettled(m, a, ok) && Coherent(m.kernel, m.store) ==> Coherent(m'.kernel, m'.store))
    && (ok && EditSettled(m, a, ok) ==> GetLimits(m'.kernel, a.pid) == Requested(m.store, a.pid, a.d, a.text))
  }

  /** The rows are a view of the discovered processes with the limits in force. */
  ghost predicate Fresh(m: Moment, c: HelperCalls)
    requires c.discovered.Some?
  {
    m.store == View(Listing(m.kernel, c.discovered.value)) && Coherent(m.kernel, m.store)
  }

  ghost predicate Traced(trace: seq<Moment>, actions: seq<Action>, oks: seq<bool>, n: nat) {
    && |trace| == n + 1 && n <= |oks| && n <= |actions|
    && forall i :: 0 <= i < n ==> Follows(trace[i], actions[i], oks[i], trace[i + 1])
  }

  lemma TraceGrows(trace: seq<Moment>, actions: seq<Action>, oks: seq<bool>, n: nat, m: Moment)
    requires n < |oks| && n < |actions| && |trace| == n + 1
    requires Traced(trace, actions, oks[..n], n) && Follows(trace[n], actions[n], oks[n], m)
    ensures Traced(trace + [m], actions, oks, n + 1)
  {
    var longer := trace + [m];
    forall i | 0 <= i < n + 1 ensures Follows(longer[i], actions[i], oks[i], longer[i + 1]) {
      if i < n {
        assert Follows(trace[i], actions[i], oks[..n][i], trace[i + 1]);
      }
    }
  }

  /** Every edit since the last refresh or OK clean is settled, and no clean has failed since. */
  ghost predicate Settled(trace: seq<Moment>, actions: seq<Action>, oks: seq<bool>, n: nat)
    requires n <= |actions| && n <= |oks| && n < |trace|
  {
    if n == 0 then true
    else if actions[n - 1].DoRefresh? then true
    else if actions[n - 1].DoClean? then oks[n - 1]
    else Settled(trace, actions, oks, n - 1) && EditSettled(trace[n - 1], actions[n - 1], oks[n - 1])
  }

  /** Over any sequence of actions the rows equal what the kernel reports whenever every edit since
      the last refresh or OK clean is settled. */
  lemma {:induction false} SessionAgrees(trace: seq<Moment>, actions: seq<Action>, oks: seq<bool>, n: nat)
    requires Traced(trace, actions, oks, |actions|) && n <= |actions|
    requires Coherent(trace[0].kernel, trace[0].store) && Settled(trace, actions, oks, n)
    ensures Coherent(trace[n].kernel, trace[n].store)
  {
    if n > 0 {
      assert Follows(trace[n - 1], actions[n - 1], oks[n - 1], trace[n]);
      if actions[n - 1].DoEdit? {
        SessionAgrees(trace, actions, oks, n - 1);
      }
    }
  }

  // ---- lists on the wire ----------------------------------------------------------------

  ghost predicate Fits(ls: seq<Listed>) {
    AllListable(ls) && AllSanitised(ls) && NoneParagraph(ls) && 2 * |ls| <= INT_MAX
  }

  lemma ListingFits(k: KernelState, procs: seq<ProcessInfo>)
    requires GoodList(procs)
    ensures Fits(Listing(k, procs))
  {}

  /** A reply to a list command is taken whole and shown as its view. */
  lemma ReplyLoads(ls: seq<Listed>)
    requires Fits(ls)
    ensures ReadList(ListReply(ls), false) == Got(Some(ListReply(ls)), "")
    ensures var lines := Split(ListReply(ls)); ParseRows(lines[1..], RowCount(lines[0])) == View(ls)
  {
    ListInLockstep(ls, "", false);
    assert ListReply(ls) + "" == ListReply(ls);
    ListRoundTrip(ls);
  }

  lemma ErrorHangs()
    ensures ReadList(Answer(false), false).Waiting?
  {
    ErrorReplyReadAsList("");
    assert "2\n" + "" == Answer(false);
  }

  /** The first row of a PID, or -1. */
  function RowOf(store: seq<Row>, pid: int): (r: int)
    ensures -1 <= r < |store| && (r >= 0 ==> store[r].pid == pid) && forall i :: 0 <= i < r ==> store[i].pid != pid
    ensures r == -1 ==> forall i :: 0 <= i < |store| ==> store[i].pid != pid
  {
    if store == [] then -1
    else if store[0].pid == pid then 0
    else
      var k := RowOf(store[1..], pid);
      assert forall i :: 1 <= i < |store| ==> store[i] == store[1..][i - 1];
      if k < 0 then -1 else k + 1
  }

  /** What the store has for a PID in one direction; unlimited if it has no row. */
  function Current(store: seq<Row>, pid: int, d: Direction): Word32 {
    var r := RowOf(store, pid);
    if r < 0 then UNLIMITED else if d == Upload then store[r].upload else store[r].download
  }

  /** The pair an edit asks for: the new value in its direction, the row's own in the other. */
  function Requested(store: seq<Row>, pid: int, d: Direction, text: string): (Word32, Word32) {
    var value := OrUnlimited(ParseLimitValue(Strip(text)));
    if d == Upload then (value, Current(store, pid, Download)) else (Current(store, pid, Upload), value)
  }

  /** The edit reaches the helper: it is of a process, and its text means a limit. */
  predicate Sends(pid: int, text: string) { pid > 0 && ParseLimitValue(Strip(text)).Some? }

  /** The first row of the PID has the new limit in one direction; nothing else differs. */
  ghost predicate RowEdited(before: seq<Row>, after: seq<Row>, pid: int, d: Direction, value: Word32) {
    && |after| == |before|
    && forall i :: 0 <= i < |before| ==>
         if i != RowOf(before, pid) then after[i] == before[i]
         else if d == Upload then after[i] == before[i].(upload := value)
         else after[i] == before[i].(download := value)
  }

  /** Changing one direction of the edited row to what the kernel now has keeps the cache right. */
  lemma EditCoherent(k: KernelState, k': KernelState, store: seq<Row>, pid: int, d: Direction, upload: Word32, download: Word32)
    requires Inv(k) && Inv(k') && Coherent(k, store) && SameElsewhere(k, k', pid) && GetLimits(k', pid) == (upload, download)
    requires if d == Upload then download == Current(store, pid, Download) else upload == Current(store, pid, Upload)
    ensures var r := RowOf(store, pid);
            Coherent(k', if r < 0 then store else store[r := Edited(store[r], d, upload, download)])
  {
    forall i | 0 <= i < |store| && store[i].pid != pid ensures Agrees(k', store[i]) {
      assert Agrees(k, store[i]);
      GetElsewhere(k, k', pid, store[i].pid);
    }
  }

  function Edited(r: Row, d: Direction, upload: Word32, download: Word32): Row {
    if d == Upload then r.(upload := upload) else r.(download := download)
  }

  lemma AnswersDiffer()
    ensures Answer(true) != Answer(false) && "" + Answer(true) == Answer(true) && "" + Answer(false) == Answer(false)
  {
    assert Answer(true)[0] != Answer(false)[0];
  }

  /** What one line does: the reply appended, and the kernel's change. */
  ghost predicate Replies(line: string, c: HelperCalls, k: KernelState, k': KernelState, before: string, after: string) {
    match ScanInt(line)
    case NoMatch => after == before && k' == k
    case Number(cmd, _) =>
      if cmd == CMD_LIST then
        k' == k && match c.discovered
          case None => after == before + Answer(false)
          case Some(procs) => ListableProcs(procs) && after == before + ListReply(Listing(k, procs))
      else if cmd == CMD_LIMIT then LimitReplies(line, c, k, k', before, after)
      else if cmd == CMD_CLEAN then
        exists ok :: after == before + Answer(ok) && CleanServed(k, k', c, ok)
      else after == before && k' == k
  }

  /** What a clean command does and when it is answered OK. */
  ghost predicate CleanServed(k: KernelState, k': KernelState, c: HelperCalls, ok: bool) {
    && (!Walks(k, c.clean) ==> ok && k' == k)
    && (Walks(k, c.clean) ==>
          && (ok <==> c.clean.deleteRoot && k'.children == {})
          && |c.walk| == |c.deletes| && Cleaned(k, k', c.walk, c.deletes, |c.walk|))
  }

  function Answer(ok: bool): string { Decimal(if ok then REPLY_OK else REPLY_ERROR) + "\n" }

  ghost predicate LimitReplies(line: string, c: HelperCalls, k: KernelState, k': KernelState, before: string, after: string) {
    match ParseLimitCommand(line)
    case None => k' == k && after == before + Answer(false)
    case Some((pid, upload, download)) =>
      && SameElsewhere(k, k', pid)
      && after == before + Answer(Accepted(k, pid, upload, download, c))
      && (Accepted(k, pid, upload, download, c) ==>
            (GetLimits(k', pid) == (upload, download) <==> Faithful(k, pid, upload, download, c)))
  }
}
