/** Setting, removing and cleaning limits.  Every system or library call may fail; each method
    takes the outcomes of its calls as a value, so what it does is a function of the kernel's
    state and of which calls fail. */
module RateLimit {
  import opened Text
  import opened TokenBucket
  import opened Kernel

  datatype Code =
    | Ok | InvalidPid | Alloc | OpenCgroup | BpfOpen | BpfLoad | BpfLink | BpfPin
    | CgroupNotFound | LibcgCreate | LibcgAttach | LibcgDelete | NoBpffs

  /** What is sent to the daemon; the answer is ignored. */
  datatype Message = WatchPid(pid: int) | UnwatchPid(pid: int) | StopMonitor

  // ---- outcomes of the calls an operation makes ------------------------------------------

  datatype LinkCalls = LinkCalls(objGet: bool, detach: bool, unlink: bool)

  datatype DetachCalls = DetachCalls(bpffs: bool, upload: LinkCalls, download: LinkCalls, rmdir: bool) {
    function Of(d: Direction): LinkCalls { if d == Upload then upload else download }

    /** The program of a pinned link is gone after these calls. */
    predicate Releases(d: Direction) { bpffs && (Of(d).unlink || (Of(d).objGet && Of(d).detach)) }

    predicate Unpins(d: Direction) { bpffs && Of(d).unlink }
  }

  datatype AttachCalls = AttachCalls(mapUpdate: bool, attach: bool, pin: bool)

  datatype SetCalls = SetCalls(
    createRoot: bool, createChild: bool, attachTask: bool, openFd: bool, calloc: bool,
    stale: DetachCalls, bpffs: bool, mkdirs: bool, skelOpen: bool, skelLoad: bool,
    upload: AttachCalls, download: AttachCalls,
    rollback: DetachCalls, delete: bool)

  datatype DeleteCalls = DeleteCalls(newCgroup: bool, getCgroup: bool, openFd: bool, detach: DetachCalls, delete: bool)

  datatype Config = Config(upload: Word32, download: Word32) {
    function Of(d: Direction): Word32 { if d == Upload then upload else download }
  }

  // ---- what the calls leave behind -------------------------------------------------------

  function SlotAfterDetach(s: Slot, c: DetachCalls, d: Direction): Slot {
    if c.Unpins(d) then Slot(false, None) else if c.Releases(d) then Slot(s.pinned, None) else s
  }

  /** The two directions of `pid` once both are detached, and nothing of any other PID touched. */
  ghost predicate DetachedFrom(j: KernelState, k: KernelState, pid: int, c: DetachCalls) {
    && SameElsewhere(j, k, pid)
    && (HasCgroup(j, pid) <==> HasCgroup(k, pid))
    && (forall d :: SlotOf(k, pid, d) == SlotAfterDetach(SlotOf(j, pid, d), c, d))
    && (pid in k.pinDirs <==> pid in j.pinDirs && !DirGone(k, pid, c))
  }

  /** The pin directory is removed once it is empty. */
  ghost predicate DirGone(k: KernelState, pid: int, c: DetachCalls) {
    c.bpffs && c.rmdir && !SlotOf(k, pid, Upload).pinned && !SlotOf(k, pid, Download).pinned
  }

  /** The PID is left without a cgroup, an attached program or a pin. */
  ghost predicate Clear(k: KernelState, pid: int) {
    !HasCgroup(k, pid) && pid !in k.pinDirs && forall d :: SlotOf(k, pid, d) == Slot(false, None)
  }

  class RateLimiter {
    var kernel: KernelState
    var sent: seq<Message>

    constructor ()
      ensures Inv(kernel) && kernel.children == {} && kernel.pins == map[] && sent == []
    {
      kernel, sent := KernelState(false, {}, map[], map[], {}, 0), [];
    }

    /** One turn of the loop in `detach_pinned_links`. */
    method DetachPinnedLink(pid: int, d: Direction, c: LinkCalls)
      requires Inv(kernel)
      modifies this`kernel
      ensures Inv(kernel) && SameElsewhere(old(kernel), kernel, pid)
      ensures kernel.children == old(kernel).children && kernel.pinDirs == old(kernel).pinDirs
      ensures kernel.root == old(kernel).root
      ensures forall o :: o != d ==> SlotOf(kernel, pid, o) == SlotOf(old(kernel), pid, o)
      ensures SlotOf(kernel, pid, d) ==
              if c.unlink then Slot(false, None)
              else if c.objGet && c.detach then Slot(SlotOf(old(kernel), pid, d).pinned, None)
              else SlotOf(old(kernel), pid, d)
    {
      if At(pid, d) in kernel.pins && c.objGet && c.detach {
        DetachFacts(kernel, pid, d);
        kernel := DetachLink(kernel, At(pid, d));
      }
      if c.unlink {
        UnpinFacts(kernel, pid, d);
        kernel := Unpin(kernel, At(pid, d));
      }
    }

    method DetachPinnedLinks(pid: int, c: DetachCalls)
      requires Inv(kernel)
      modifies this`kernel
      ensures Inv(kernel) && DetachedFrom(old(kernel), kernel, pid, c)
      ensures kernel.root == old(kernel).root && kernel.children == old(kernel).children
    {
      if !c.bpffs {
        return;
      }
      var links := [Upload, Download];
      var i := 0;
      while i < |links|
        invariant 0 <= i <= 2 && Inv(kernel) && SameElsewhere(old(kernel), kernel, pid)
        invariant kernel.children == old(kernel).children && kernel.pinDirs == old(kernel).pinDirs
        invariant kernel.root == old(kernel).root
        invariant SlotOf(kernel, pid, Upload) ==
                  if i >= 1 then SlotAfterDetach(SlotOf(old(kernel), pid, Upload), c, Upload) else SlotOf(old(kernel), pid, Upload)
        invariant SlotOf(kernel, pid, Download) ==
                  if i >= 2 then SlotAfterDetach(SlotOf(old(kernel), pid, Download), c, Download) else SlotOf(old(kernel), pid, Download)
      {
        DetachPinnedLink(pid, links[i], c.Of(links[i]));
        i := i + 1;
      }
      if c.rmdir {
        RmdirFacts(kernel, pid);
        kernel := RemovePinDir(kernel, pid);
      }
    }

    /** `delete_cgroup`: links are detached only when the caller holds the cgroup's descriptor. */
    method DeleteCgroup(pid: int, haveFd: bool, c: DetachCalls, delete: bool)
      requires Inv(kernel) && pid > 0
      modifies this`kernel
      ensures Inv(kernel) && SameElsewhere(old(kernel), kernel, pid)
      ensures kernel.root == old(kernel).root
      ensures kernel.children == if delete then old(kernel).children - {Name(pid)} else old(kernel).children
      ensures forall d :: var s := SlotOf(old(kernel), pid, d);
                var t := if haveFd then SlotAfterDetach(s, c, d) else s;
                SlotOf(kernel, pid, d) == if delete then Slot(t.pinned, None) else t
      ensures pid in kernel.pinDirs <==> pid in old(kernel).pinDirs && !(haveFd && DirGone(kernel, pid, c))
    {
      if haveFd {
        DetachPinnedLinks(pid, c);
      }
      if delete {
        RemoveCgroupFacts(kernel, pid);
        kernel := RemoveCgroup(kernel, pid);
      }
    }

    /** `create_pin_dir`: the directories may exist already. */
    method CreatePinDir(pid: int, c: SetCalls) returns (code: Code)
      requires Inv(kernel)
      modifies this`kernel
      ensures code == (if !c.bpffs then NoBpffs else if !c.mkdirs then BpfPin else Ok)
      ensures kernel == if code.Ok? then old(kernel).(pinDirs := old(kernel).pinDirs + {pid}) else old(kernel)
      ensures Inv(kernel)
    {
      if !c.bpffs {
        return NoBpffs;
      }
      if !c.mkdirs {
        return BpfPin;
      }
      kernel := kernel.(pinDirs := kernel.pinDirs + {pid});
      assert forall p :: p in old(kernel).pins ==> PinOk(old(kernel), p);
      return Ok;
    }

    /** One turn of the loop in `attach_bpf_programs`: write the limit, attach, pin.  A link that
        cannot be pinned is destroyed, and with it its attachment. */
    method AttachDirection(pid: int, d: Direction, kbps: Word32, c: AttachCalls) returns (code: Code)
      requires Inv(kernel) && HasCgroup(kernel, pid) && pid in kernel.pinDirs
      modifies this`kernel
      ensures Inv(kernel) && SameElsewhere(old(kernel), kernel, pid)
      ensures kernel.children == old(kernel).children && kernel.pinDirs == old(kernel).pinDirs
      ensures code == AttachCode(kbps, SlotOf(old(kernel), pid, d).pinned, c)
      ensures forall o :: SlotOf(kernel, pid, o) ==
                if o == d && code.Ok? && kbps != UNLIMITED then Slot(true, Some(kbps)) else SlotOf(old(kernel), pid, o)
    {
      PinnedIffInPins(kernel, pid, d);
      if kbps == UNLIMITED {
        return Ok;
      }
      if !c.mapUpdate {
        return BpfLoad;
      }
      if !c.attach {
        return BpfLink;
      }
      var id := kernel.next;
      if c.pin && At(pid, d) !in kernel.pins {
        AttachFacts(kernel, pid, d, kbps);
        kernel := Attach(kernel, At(pid, d), kbps);
        kernel := Pin(kernel, At(pid, d), id);
        return Ok;
      } else {
        UnpinnedFacts(kernel, At(pid, d), kbps);
        kernel := Attach(kernel, At(pid, d), kbps);
        kernel := kernel.(links := Off(kernel, {id}));
        return BpfPin;
      }
    }

    /** `attach_bpf_programs`.  Upload comes first, so a failure can leave upload attached but
        never download. */
    method AttachBpfPrograms(pid: int, config: Config, c: SetCalls) returns (code: Code)
      requires Inv(kernel) && HasCgroup(kernel, pid) && pid in kernel.pinDirs
      modifies this`kernel
      ensures Inv(kernel) && SameElsewhere(old(kernel), kernel, pid)
      ensures kernel.children == old(kernel).children && kernel.pinDirs == old(kernel).pinDirs
      ensures code == ProgramsCode(SlotOf(old(kernel), pid, Upload), SlotOf(old(kernel), pid, Download), config, c)
      ensures SlotOf(kernel, pid, Upload) ==
              if c.skelOpen && c.skelLoad && DirectionOk(old(kernel), pid, Upload, config, c.upload) && config.upload != UNLIMITED
              then Slot(true, Some(config.upload)) else SlotOf(old(kernel), pid, Upload)
      ensures SlotOf(kernel, pid, Download) ==
              if code.Ok? && config.download != UNLIMITED then Slot(true, Some(config.download)) else SlotOf(old(kernel), pid, Download)
    {
      if !c.skelOpen {
        return BpfOpen;
      }
      if !c.skelLoad {
        return BpfLoad;
      }
      var directions := [(Upload, c.upload), (Download, c.download)];
      var i := 0;
      while i < |directions|
        invariant 0 <= i <= 2 && Inv(kernel) && SameElsewhere(old(kernel), kernel, pid)
        invariant kernel.children == old(kernel).children && kernel.pinDirs == old(kernel).pinDirs
        invariant i >= 1 ==> DirectionOk(old(kernel), pid, Upload, config, c.upload)
        invariant i >= 2 ==> DirectionOk(old(kernel), pid, Download, config, c.download)
        invariant SlotOf(kernel, pid, Upload) ==
                  if i >= 1 && config.upload != UNLIMITED then Slot(true, Some(config.upload)) else SlotOf(old(kernel), pid, Upload)
        invariant SlotOf(kernel, pid, Download) ==
                  if i >= 2 && config.download != UNLIMITED then Slot(true, Some(config.download)) else SlotOf(old(kernel), pid, Download)
      {
        code := AttachDirection(pid, directions[i].0, config.Of(directions[i].0), directions[i].1);
        if code != Ok {
          return;
        }
        i := i + 1;
      }
      code := Ok;
    }

    /** Detach any earlier links, make the pin directory, attach. */
    method AttachLimits(pid: int, config: Config, c: SetCalls) returns (code: Code)
      requires Inv(kernel) && HasCgroup(kernel, pid)
      requires c.createRoot && c.createChild && c.attachTask && c.openFd && c.calloc
      modifies this`kernel
      ensures Inv(kernel) && SameElsewhere(old(kernel), kernel, pid) && kernel.children == old(kernel).children
      ensures code.Ok? <==> SetSucceeds(old(kernel), pid, config, c)
      ensures code == SetCode(SlotOf(old(kernel), pid, Upload), SlotOf(old(kernel), pid, Download), config, c)
      ensures code.Ok? ==> forall d :: SlotOf(kernel, pid, d) == SlotAfterSet(SlotOf(old(kernel), pid, d), config, c.stale, d)
      ensures !code.Ok? ==> forall d :: SlotOf(kernel, pid, d) == SlotAtFailure(SlotOf(old(kernel), pid, d), config, c, d)
      ensures pid in kernel.pinDirs <==> DirAtFailure(old(kernel), pid, c)
    {
      DetachPinnedLinks(pid, c.stale);
      code := PinAndAttach(pid, config, c);
    }

    /** Make the pin directory and attach. */
    method PinAndAttach(pid: int, config: Config, c: SetCalls) returns (code: Code)
      requires Inv(kernel) && HasCgroup(kernel, pid)
      modifies this`kernel
      ensures Inv(kernel) && SameElsewhere(old(kernel), kernel, pid) && kernel.children == old(kernel).children
      ensures code == PinCode(SlotOf(old(kernel), pid, Upload), SlotOf(old(kernel), pid, Download), config, c)
      ensures SlotOf(kernel, pid, Upload) ==
              if Attaches(c) && DirectionOk(old(kernel), pid, Upload, config, c.upload) && config.upload != UNLIMITED
              then Slot(true, Some(config.upload)) else SlotOf(old(kernel), pid, Upload)
      ensures SlotOf(kernel, pid, Download) ==
              if code.Ok? && config.download != UNLIMITED then Slot(true, Some(config.download)) else SlotOf(old(kernel), pid, Download)
      ensures pid in kernel.pinDirs <==> pid in old(kernel).pinDirs || (c.bpffs && c.mkdirs)
    {
      code := CreatePinDir(pid, c);
      if code.Ok? {
        code := AttachBpfPrograms(pid, config, c);
      }
    }

    /** The rest of `limit_process_bandwidth` once the PID's cgroup exists. */
    method LimitInCgroup(pid: int, config: Config, c: SetCalls) returns (code: Code)
      requires Inv(kernel) && HasCgroup(kernel, pid) && c.createRoot && c.createChild
      modifies this`kernel
      ensures Inv(kernel) && SameElsewhere(old(kernel), kernel, pid)
      ensures code.Ok? <==> SetSucceeds(old(kernel), pid, config, c)
      ensures code == SetCode(SlotOf(old(kernel), pid, Upload), SlotOf(old(kernel), pid, Download), config, c)
      ensures code.Ok? ==> SetDone(old(kernel), kernel, pid, config, c)
      ensures !code.Ok? ==> FailedSet(old(kernel), kernel, pid, config, c)
    {
      if !c.attachTask {
        FailEarly(pid, config, c, false);
        return LibcgAttach;
      }
      if !c.openFd {
        FailEarly(pid, config, c, false);
        return OpenCgroup;
      }
      if !c.calloc {
        FailEarly(pid, config, c, true);
        return Alloc;
      }
      code := AttachOrUndo(pid, config, c);
    }

    /** The rollback of a set that failed before attaching anything. */
    method FailEarly(pid: int, config: Config, c: SetCalls, haveFd: bool)
      requires Inv(kernel) && HasCgroup(kernel, pid)
      requires !(c.attachTask && c.openFd && c.calloc) && haveFd == (c.attachTask && c.openFd)
      modifies this`kernel
      ensures Inv(kernel) && SameElsewhere(old(kernel), kernel, pid)
      ensures FailedSet(old(kernel), kernel, pid, config, c)
    {
      DeleteCgroup(pid, haveFd, c.rollback, c.delete);
    }

    /** Attach the limits, and roll back if that failed. */
    method AttachOrUndo(pid: int, config: Config, c: SetCalls) returns (code: Code)
      requires Inv(kernel) && HasCgroup(kernel, pid)
      requires c.createRoot && c.createChild && c.attachTask && c.openFd && c.calloc
      modifies this`kernel
      ensures Inv(kernel) && SameElsewhere(old(kernel), kernel, pid)
      ensures code.Ok? <==> SetSucceeds(old(kernel), pid, config, c)
      ensures code == SetCode(SlotOf(old(kernel), pid, Upload), SlotOf(old(kernel), pid, Download), config, c)
      ensures code.Ok? ==> SetDone(old(kernel), kernel, pid, config, c)
      ensures !code.Ok? ==> FailedSet(old(kernel), kernel, pid, config, c)
    {
      code := AttachLimits(pid, config, c);
      if !code.Ok? {
        DeleteCgroup(pid, true, c.rollback, c.delete);
      }
    }

    /** The two calls of `create_cgroup`; either cgroup may exist already. */
    method CreateCgroups(pid: int, c: SetCalls) returns (code: Code)
      requires Inv(kernel) && pid > 0
      modifies this`kernel
      ensures Inv(kernel) && SameElsewhere(old(kernel), kernel, pid) && kernel.pinDirs == old(kernel).pinDirs
      ensures code == if c.createRoot && c.createChild then Ok else LibcgCreate
      ensures HasCgroup(kernel, pid) <==> HasCgroup(old(kernel), pid) || code.Ok?
      ensures forall d :: SlotOf(kernel, pid, d) == SlotOf(old(kernel), pid, d)
    {
      if !c.createRoot {
        return LibcgCreate;
      }
      kernel := kernel.(root := true);
      if !c.createChild {
        return LibcgCreate;
      }
      AddCgroupFacts(kernel, pid);
      kernel := AddCgroup(kernel, pid);
      return Ok;
    }

    /** `limit_process_bandwidth`: set a PID's limits and hand it to the monitor.  A set that fails,
        at whatever call, leaves a PID that had nothing with nothing exactly when it had created
        nothing or the rollback's own calls that mattered succeeded. */
    method LimitProcessBandwidth(pid: int, config: Config, c: SetCalls) returns (code: Code)
      requires Inv(kernel)
      modifies this
      ensures Inv(kernel) && SameElsewhere(old(kernel), kernel, pid)
      ensures code.Ok? <==> pid > 0 && SetSucceeds(old(kernel), pid, config, c)
      ensures code == if pid <= 0 then InvalidPid
                      else SetCode(SlotOf(old(kernel), pid, Upload), SlotOf(old(kernel), pid, Download), config, c)
      ensures code.Ok? ==> HasCgroup(kernel, pid)
      ensures code.Ok? ==> (GetLimits(kernel, pid) == (config.upload, config.download) <==>
                              StaleGone(old(kernel), pid, config, c))
      ensures !code.Ok? && !Created(pid, c) ==> SamePid(old(kernel), kernel, pid)
      ensures !code.Ok? && Created(pid, c) ==> FailedSet(old(kernel), kernel, pid, config, c)
      ensures !code.Ok? && Clear(old(kernel), pid) ==> (Clear(kernel, pid) <==> !Created(pid, c) || Undone(config, c))
      ensures sent == old(sent) + if code.Ok? then [WatchPid(pid)] else []
    {
      if pid <= 0 {
        return InvalidPid;
      }
      code := CreateCgroups(pid, c);
      if !code.Ok? {
        return;
      }
      code := LimitInCgroup(pid, config, c);
      if code.Ok? {
        SetGetRoundTrip(old(kernel), kernel, pid, config, c);
        sent := sent + [WatchPid(pid)];
      } else if Clear(old(kernel), pid) {
        FailedSetIsClearIff(old(kernel), kernel, pid, config, c);
      }
    }

    /** `delete_pid_cgroup`. */
    method DeletePidCgroup(pid: int, c: DeleteCalls) returns (code: Code)
      requires Inv(kernel)
      modifies this`kernel
      ensures Inv(kernel) && SameElsewhere(old(kernel), kernel, pid) && kernel.root == old(kernel).root
      ensures code.Ok? <==> c.newCgroup && HasCgroup(old(kernel), pid) && c.getCgroup && c.openFd
      ensures code.CgroupNotFound? <==> c.newCgroup && !(HasCgroup(old(kernel), pid) && c.getCgroup && c.openFd)
      ensures !code.Ok? ==> kernel == old(kernel)
      ensures code.Ok? ==> forall d :: SlotOf(kernel, pid, d) == SlotAfterDelete(SlotOf(old(kernel), pid, d), c, d)
      ensures code.Ok? ==> kernel.children == if c.delete then old(kernel).children - {Name(pid)} else old(kernel).children
      ensures code.Ok? ==> (pid in kernel.pinDirs <==> pid in old(kernel).pinDirs && !DirGone(kernel, pid, c.detach))
      ensures code.Ok? ==> (GetLimits(kernel, pid) == (UNLIMITED, UNLIMITED) <==> c.delete || AllGone(old(kernel), pid, c.detach))
    {
      if !c.newCgroup {
        return LibcgDelete;
      }
      if !HasCgroup(kernel, pid) || !c.getCgroup || !c.openFd {
        return CgroupNotFound;
      }
      DeleteCgroup(pid, true, c.detach, c.delete);
      DeleteGet(old(kernel), kernel, pid, c);
      return Ok;
    }

    /** One entry of the walk. */
    method CleanEntry(e: Entry, d: DeleteCalls)
      requires Inv(kernel)
      modifies this`kernel
      ensures Inv(kernel) && kernel.root == old(kernel).root
      ensures forall n :: n in kernel.children <==> n in old(kernel).children && !Removes(e, d, n)
      ensures forall q :: TargetOf(e) != Some(q) ==> SamePid(old(kernel), kernel, q)
    {
      if e.Dir? && e.path != "" {
        var pid := ParsePid(e.path);
        if pid.None? {
          return;
        }
        var _ := DeletePidCgroup(pid.value, d);
      }
    }

    /** `ratelimit_cleanup_all`: `walk` is what the tree walk delivers, in any order and possibly
        cut short by an error; `deletes[i]` are the outcomes for entry `i`.  Exactly the PIDs walked
        whose deletion's calls succeed lose their cgroup, whatever becomes of the other entries. */
    method CleanupAll(walk: seq<Entry>, deletes: seq<DeleteCalls>, c: CleanCalls) returns (code: Code)
      requires Inv(kernel) && |deletes| == |walk|
      modifies this
      ensures Inv(kernel)
      ensures code.Ok? || code.LibcgDelete?
      ensures sent == old(sent) + if Walks(old(kernel), c) && code.Ok? then [StopMonitor] else []
      ensures !Walks(old(kernel), c) ==> code.Ok? && kernel == old(kernel)
      ensures Walks(old(kernel), c) ==> Cleaned(old(kernel), kernel, walk, deletes, |walk|)
      ensures Walks(old(kernel), c) ==> (code.Ok? <==> c.deleteRoot && kernel.children == {})
      ensures Walks(old(kernel), c) ==> kernel.root == !code.Ok?
      ensures Walks(old(kernel), c) ==>
                forall i :: 0 <= i < |walk| && walk[i].Dir? && IsPidName(walk[i].path) && AllSucceed(deletes[i]) ==>
                  walk[i].path !in kernel.children
      ensures forall n :: n in old(kernel).children && !IsPidName(n) ==> n in kernel.children
      ensures Walks(old(kernel), c) && c.deleteRoot && Thorough(old(kernel), walk, deletes) ==>
                (code.Ok? <==> forall n :: n in old(kernel).children ==> IsPidName(n))
    {
      if !c.newCgroup {
        return Ok;
      }
      if !kernel.root || !c.getCgroup {
        return Ok;
      }
      ghost var k := kernel;
      var i := 0;
      while i < |walk|
        invariant 0 <= i <= |walk| && Inv(kernel) && kernel.root && sent == old(sent)
        invariant Cleaned(k, kernel, walk, deletes, i)
      {
        ghost var before := kernel;
        CleanEntry(walk[i], deletes[i]);
        CleanedOne(k, before, kernel, walk, deletes, i);
        i := i + 1;
      }
      CleanedNames(k, kernel, walk, deletes);
      if !c.deleteRoot || kernel.children != {} {
        return LibcgDelete;
      }
      kernel := kernel.(root := false);
      sent := sent + [StopMonitor];
      return Ok;
    }
  }

  // ---- set ------------------------------------------------------------------------------

  ghost predicate SamePid(j: KernelState, k: KernelState, pid: int) {
    && (HasCgroup(k, pid) <==> HasCgroup(j, pid)) && (pid in k.pinDirs <==> pid in j.pinDirs)
    && forall d :: SlotOf(k, pid, d) == SlotOf(j, pid, d)
  }

  /** A direction set to a limit carries it; one set to unlimited is whatever detaching the
      earlier link left. */
  function SlotAfterSet(s: Slot, config: Config, stale: DetachCalls, d: Direction): Slot {
    if config.Of(d) != UNLIMITED then Slot(true, Some(config.Of(d))) else SlotAfterDetach(s, stale, d)
  }

  /** The PID's cgroup is there and each direction is as the set leaves it. */
  ghost predicate SetDone(j: KernelState, k: KernelState, pid: int, config: Config, c: SetCalls) {
    HasCgroup(k, pid) && forall d :: SlotOf(k, pid, d) == SlotAfterSet(SlotOf(j, pid, d), config, c.stale, d)
  }

  predicate Attaches(c: SetCalls) { c.bpffs && c.mkdirs && c.skelOpen && c.skelLoad }

  predicate CallsReachAttach(c: SetCalls) {
    c.createRoot && c.createChild && c.attachTask && c.openFd && c.calloc && Attaches(c)
  }

  /** The pin path must be free: an earlier pin that could not be unlinked stops a new one. */
  predicate AttachSucceeds(s: Slot, config: Config, c: SetCalls, d: Direction) {
    var a := if d == Upload then c.upload else c.download;
    config.Of(d) == UNLIMITED || (a.mapUpdate && a.attach && a.pin && !SlotAfterDetach(s, c.stale, d).pinned)
  }

  predicate SetSucceeds(k: KernelState, pid: int, config: Config, c: SetCalls) {
    && CallsReachAttach(c)
    && AttachSucceeds(SlotOf(k, pid, Upload), config, c, Upload)
    && AttachSucceeds(SlotOf(k, pid, Download), config, c, Download)
  }

  /** The upload program was attached and pinned before the set failed. */
  predicate UploadDone(s: Slot, config: Config, c: SetCalls) {
    CallsReachAttach(c) && config.upload != UNLIMITED && AttachSucceeds(s, config, c, Upload)
  }

  /** The code of the first thing that goes wrong while attaching one direction. */
  function AttachCode(kbps: Word32, pinned: bool, c: AttachCalls): Code {
    if kbps == UNLIMITED then Ok
    else if !c.mapUpdate then BpfLoad else if !c.attach then BpfLink else if !c.pin || pinned then BpfPin else Ok
  }

  function ProgramsCode(upload: Slot, download: Slot, config: Config, c: SetCalls): Code {
    var first := AttachCode(config.upload, upload.pinned, c.upload);
    if !c.skelOpen then BpfOpen
    else if !c.skelLoad then BpfLoad
    else if first != Ok then first else AttachCode(config.download, download.pinned, c.download)
  }

  function PinCode(upload: Slot, download: Slot, config: Config, c: SetCalls): Code {
    if !c.bpffs then NoBpffs else if !c.mkdirs then BpfPin else ProgramsCode(upload, download, config, c)
  }

  /** The code a set of a valid PID returns, in the order of the calls. */
  function SetCode(upload: Slot, download: Slot, config: Config, c: SetCalls): Code {
    if !c.createRoot || !c.createChild then LibcgCreate
    else if !c.attachTask then LibcgAttach
    else if !c.openFd then OpenCgroup
    else if !c.calloc then Alloc
    else PinCode(SlotAfterDetach(upload, c.stale, Upload), SlotAfterDetach(download, c.stale, Download), config, c)
  }

  /** The pin directory was made before the set failed. */
  predicate DirMade(c: SetCalls) { c.attachTask && c.openFd && c.calloc && c.bpffs && c.mkdirs }

  /** The set got as far as creating the PID's cgroup. */
  predicate Created(pid: int, c: SetCalls) { pid > 0 && c.createRoot && c.createChild }

  /** One direction of the PID, and its pin directory, when a set fails and before the rollback. */
  function SlotAtFailure(s: Slot, config: Config, c: SetCalls, d: Direction): Slot {
    if !(c.attachTask && c.openFd && c.calloc) then s
    else if d == Upload && UploadDone(s, config, c) then Slot(true, Some(config.upload))
    else SlotAfterDetach(s, c.stale, d)
  }

  ghost predicate DirAtFailure(k: KernelState, pid: int, c: SetCalls) {
    || DirMade(c)
    || (pid in k.pinDirs && !(c.attachTask && c.openFd && c.calloc && EmptiesDir(k, pid, c.stale)))
  }

  /** Detaching leaves no pin, and the directory is removed. */
  predicate EmptiesDir(k: KernelState, pid: int, c: DetachCalls) {
    && c.bpffs && c.rmdir
    && !SlotAfterDetach(SlotOf(k, pid, Upload), c, Upload).pinned && !SlotAfterDetach(SlotOf(k, pid, Download), c, Download).pinned
  }

  /** The rollback detaches only with the cgroup's descriptor at hand. */
  function SlotAfterRollback(s: Slot, c: SetCalls, d: Direction): Slot {
    var t := if c.attachTask && c.openFd then SlotAfterDetach(s, c.rollback, d) else s;
    if c.delete then Slot(t.pinned, None) else t
  }

  /** What a failed set that had created the cgroup leaves of the PID. */
  ghost predicate FailedSet(j: KernelState, k: KernelState, pid: int, config: Config, c: SetCalls) {
    && (HasCgroup(k, pid) <==> !c.delete)
    && (forall d :: SlotOf(k, pid, d) == SlotAfterRollback(SlotAtFailure(SlotOf(j, pid, d), config, c, d), c, d))
    && (pid in k.pinDirs <==> DirAtFailure(j, pid, c) && !(c.attachTask && c.openFd && DirGone(k, pid, c.rollback)))
  }

  /** No program was in force in this direction, or the calls released it. */
  predicate Gone(s: Slot, c: DetachCalls, d: Direction) { s.limit.Some? ==> c.Releases(d) }

  /** Any program in a direction now unlimited was released before the new ones were attached. */
  predicate StaleGone(k: KernelState, pid: int, config: Config, c: SetCalls) {
    && (config.upload == UNLIMITED ==> Gone(SlotOf(k, pid, Upload), c.stale, Upload))
    && (config.download == UNLIMITED ==> Gone(SlotOf(k, pid, Download), c.stale, Download))
  }

  /** Set/get round trip: after a successful set the limits read back are the requested ones
      exactly when no earlier program survives in a direction now unlimited. */
  lemma SetGetRoundTrip(j: KernelState, k: KernelState, pid: int, config: Config, c: SetCalls)
    requires Inv(j) && Inv(k)
    requires SetDone(j, k, pid, config, c)
    ensures GetLimits(k, pid) == (config.upload, config.download) <==> StaleGone(j, pid, config, c)
  {
    GetIsSlots(k, pid);
    LimitsAreReal(j, pid, Upload);
    LimitsAreReal(j, pid, Download);
  }

  lemma LimitsAreReal(k: KernelState, pid: int, d: Direction)
    requires Inv(k)
    ensures SlotOf(k, pid, d).limit != Some(UNLIMITED)
  {
    if SlotOf(k, pid, d).limit.Some? {
      assert InForce(k, k.pins[At(pid, d)]);
    }
  }

  /** The rollback undid what had been done: the cgroup, the directory if it was made, and the
      upload pin if it was set. */
  predicate Undone(config: Config, c: SetCalls) {
    && c.delete
    && (DirMade(c) ==> c.rollback.bpffs && c.rollback.rmdir)
    && (UploadDone(Slot(false, None), config, c) ==> c.rollback.Unpins(Upload))
  }

  /** Failure atomicity: a set that fails at any point leaves a PID that had nothing with nothing,
      exactly when the rollback's own calls that mattered succeeded. */
  lemma FailedSetIsClearIff(j: KernelState, k: KernelState, pid: int, config: Config, c: SetCalls)
    requires Clear(j, pid) && Inv(k) && FailedSet(j, k, pid, config, c)
    ensures Clear(k, pid) <==> Undone(config, c)
  {
    assert SlotOf(j, pid, Upload) == Slot(false, None) && SlotOf(j, pid, Download) == Slot(false, None);
    if Undone(config, c) {
      forall d ensures SlotOf(k, pid, d) == Slot(false, None) {
        match d
        case Upload =>
        case Download =>
      }
    }
  }

  // ---- unset ----------------------------------------------------------------------------

  function SlotAfterDelete(s: Slot, c: DeleteCalls, d: Direction): Slot {
    var t := SlotAfterDetach(s, c.detach, d);
    if c.delete then Slot(t.pinned, None) else t
  }

  predicate AllGone(k: KernelState, pid: int, c: DetachCalls) {
    Gone(SlotOf(k, pid, Upload), c, Upload) && Gone(SlotOf(k, pid, Download), c, Download)
  }

  /** A deletion reported as done leaves no limit in force exactly when the cgroup was removed
      or every attached program was released. */
  lemma DeleteGet(j: KernelState, k: KernelState, pid: int, c: DeleteCalls)
    requires Inv(j) && Inv(k)
    requires forall d :: SlotOf(k, pid, d) == SlotAfterDelete(SlotOf(j, pid, d), c, d)
    ensures GetLimits(k, pid) == (UNLIMITED, UNLIMITED) <==>
              c.delete || AllGone(j, pid, c.detach)
  {
    GetIsSlots(k, pid);
    LimitsAreReal(j, pid, Upload);
    LimitsAreReal(j, pid, Download);
  }

  // ---- clean ----------------------------------------------------------------------------

  datatype Entry = File(path: string) | Dir(path: string)

  datatype CleanCalls = CleanCalls(newCgroup: bool, getCgroup: bool, deleteRoot: bool)

  predicate Walks(k: KernelState, c: CleanCalls) { c.newCgroup && k.root && c.getCgroup }

  predicate AllSucceed(c: DeleteCalls) { c.newCgroup && c.getCgroup && c.openFd && c.delete }

  /** The walk delivers every child and every deletion's calls succeed. */
  ghost predicate Thorough(k: KernelState, walk: seq<Entry>, deletes: seq<DeleteCalls>)
    requires |deletes| == |walk|
  {
    && (forall n :: n in k.children ==> exists i :: 0 <= i < |walk| && walk[i] == Dir(n))
    && (forall i :: 0 <= i < |deletes| ==> AllSucceed(deletes[i]))
  }

  /** The name `build_cgroup_name` gives some PID. */
  ghost predicate IsPidName(n: string) {
    exists pid :: 0 < pid <= INT_MAX && n == Name(pid)
  }

  /** The walk's reading of a directory name. */
  function ParsePid(n: string): Option<int> {
    match ScanInt(n)
    case NoMatch => None
    case Number(v, rest) => if rest == "" && 0 < v <= INT_MAX then Some(v) else None
  }

  /** Every PID's cgroup name fits the 64-byte buffer and is read back as that PID. */
  lemma PidNameRoundTrip(pid: int)
    requires 0 < pid <= INT_MAX
    ensures |"pidnl/" + Name(pid)| < 64 && ParsePid(Name(pid)) == Some(pid)
  {
    assert Pow10(10) == 10_000_000_000;
    DecimalLength(pid, 10);
    ScanDecimal(pid, "");
    assert Name(pid) + "" == Name(pid);
  }

  /** Other names are passed over: a number out of range or with anything after it, and whatever is
      not digits to its end. */
  lemma NoPidName(v: nat, rest: string, n: string)
    requires !StartsWithDigit(rest)
    ensures ParsePid(Decimal(v) + rest) == if rest == "" && 0 < v <= INT_MAX then Some(v) else None
    ensures ParsePid(n).Some? ==> Magnitude(n) != "" && AllDigits(Magnitude(n)) && 0 < ParsePid(n).value <= INT_MAX
  {
    ScanDecimal(v, rest);
    WholeNumberIff(n);
  }

  lemma PidNames(n: string, pid: int)
    requires ParsePid(n) == Some(pid)
    ensures IsPidName(Name(pid)) && (IsPidName(n) ==> n == Name(pid))
  {
    if IsPidName(n) {
      var q :| 0 < q <= INT_MAX && n == Name(q);
      PidNameRoundTrip(q);
    }
  }

  /** The PID a walked entry makes the clean delete. */
  function TargetOf(e: Entry): Option<int> { if e.Dir? && e.path != "" then ParsePid(e.path) else None }

  ghost predicate Removes(e: Entry, d: DeleteCalls, n: string) {
    TargetOf(e).Some? && AllSucceed(d) && n == Name(TargetOf(e).value)
  }

  /** After the first `i` entries: exactly the names they remove are gone, and PIDs none of them
      targets are untouched. */
  ghost predicate Cleaned(j: KernelState, k: KernelState, walk: seq<Entry>, deletes: seq<DeleteCalls>, i: nat)
    requires i <= |walk| == |deletes|
  {
    && (forall n :: n in k.children <==> n in j.children && !RemovedBy(walk, deletes, i, n))
    && (forall q :: !TargetedBy(walk, i, q) ==> SamePid(j, k, q))
  }

  ghost predicate RemovedBy(walk: seq<Entry>, deletes: seq<DeleteCalls>, i: nat, n: string)
    requires i <= |walk| == |deletes|
  {
    exists x :: 0 <= x < i && Removes(walk[x], deletes[x], n)
  }

  ghost predicate TargetedBy(walk: seq<Entry>, i: nat, q: int)
    requires i <= |walk|
  {
    exists x :: 0 <= x < i && TargetOf(walk[x]) == Some(q)
  }

  lemma CleanedOne(j: KernelState, before: KernelState, k: KernelState, walk: seq<Entry>, deletes: seq<DeleteCalls>, i: nat)
    requires i < |walk| == |deletes| && Cleaned(j, before, walk, deletes, i)
    requires forall n :: n in k.children <==> n in before.children && !Removes(walk[i], deletes[i], n)
    requires forall q :: TargetOf(walk[i]) != Some(q) ==> SamePid(before, k, q)
    ensures Cleaned(j, k, walk, deletes, i + 1)
  {
    forall n ensures n in k.children <==> n in j.children && !RemovedBy(walk, deletes, i + 1, n) {
      assert RemovedBy(walk, deletes, i + 1, n) <==> RemovedBy(walk, deletes, i, n) || Removes(walk[i], deletes[i], n);
    }
    forall q | !TargetedBy(walk, i + 1, q) ensures SamePid(j, k, q) {
      assert !TargetedBy(walk, i, q) && TargetOf(walk[i]) != Some(q);
    }
  }

  /** In terms of names: a walked PID's name whose deletion succeeds is gone; no other name is
      touched; and after a thorough walk just the names that are no PID's are left. */
  lemma CleanedNames(j: KernelState, k: KernelState, walk: seq<Entry>, deletes: seq<DeleteCalls>)
    requires |walk| == |deletes| && Cleaned(j, k, walk, deletes, |walk|)
    ensures forall i :: 0 <= i < |walk| && walk[i].Dir? && IsPidName(walk[i].path) && AllSucceed(deletes[i]) ==>
              walk[i].path !in k.children
    ensures forall n :: n in j.children && !IsPidName(n) ==> n in k.children
    ensures Thorough(j, walk, deletes) ==> forall n :: n in k.children <==> n in j.children && !IsPidName(n)
  {
    forall i | 0 <= i < |walk| && walk[i].Dir? && IsPidName(walk[i].path) && AllSucceed(deletes[i])
      ensures RemovedBy(walk, deletes, |walk|, walk[i].path)
    {
      PidNameRemoved(walk[i], deletes[i]);
    }
    forall n | n in j.children && !IsPidName(n) ensures !RemovedBy(walk, deletes, |walk|, n) {
      if RemovedBy(walk, deletes, |walk|, n) {
        var x :| 0 <= x < |walk| && Removes(walk[x], deletes[x], n);
        PidNames(walk[x].path, TargetOf(walk[x]).value);
      }
    }
    if Thorough(j, walk, deletes) {
      forall n | n in j.children && IsPidName(n) ensures n !in k.children {
        var i :| 0 <= i < |walk| && walk[i] == Dir(n);
      }
    }
  }

  lemma PidNameRemoved(e: Entry, d: DeleteCalls)
    requires e.Dir? && IsPidName(e.path) && AllSucceed(d)
    ensures Removes(e, d, e.path)
  {
    var q :| 0 < q <= INT_MAX && e.path == Name(q);
    PidNameRoundTrip(q);
  }

  lemma LimitNeedsCgroup(k: KernelState, pid: int, d: Direction)
    requires Inv(k)
    ensures SlotOf(k, pid, d).limit.Some? ==> HasCgroup(k, pid)
  {
    if SlotOf(k, pid, d).limit.Some? {
      assert InForce(k, k.pins[At(pid, d)]);
    }
  }

  /** After a clean that removed the root no PID is limited. */
  lemma CleanLeavesNoLimit(k: KernelState, pid: int)
    requires Inv(k) && k.children == {}
    ensures GetLimits(k, pid) == (UNLIMITED, UNLIMITED) && forall d :: SlotOf(k, pid, d).limit.None?
  {
    forall d ensures SlotOf(k, pid, d).limit.None? {
      LimitNeedsCgroup(k, pid, d);
    }
  }

  /** Attaching one direction succeeds. */
  ghost predicate DirectionOk(k: KernelState, pid: int, d: Direction, config: Config, c: AttachCalls) {
    config.Of(d) == UNLIMITED || (c.mapUpdate && c.attach && c.pin && !SlotOf(k, pid, d).pinned)
  }

  /** A link attached and destroyed again leaves no trace. */
  lemma UnpinnedFacts(k: KernelState, path: PinPath, kbps: Word32)
    requires Inv(k)
    ensures var j := Attach(k, path, kbps);
            var k' := j.(links := Off(j, {k.next}));
            Inv(k') && SameElsewhere(k, k', path.pid) && forall o :: SlotOf(k', path.pid, o) == SlotOf(k, path.pid, o)
  {
    assert forall p :: p in k.pins ==> PinOk(k, p);
  }

  lemma PinnedIffInPins(k: KernelState, pid: int, d: Direction)
    requires Inv(k)
    ensures SlotOf(k, pid, d).pinned <==> At(pid, d) in k.pins
  {
    assert At(pid, d) in k.pins ==> PinOk(k, At(pid, d));
  }

  lemma RmdirFacts(k: KernelState, pid: int)
    requires Inv(k)
    ensures var k' := RemovePinDir(k, pid);
            Inv(k') && SameElsewhere(k, k', pid) && (forall d :: SlotOf(k', pid, d) == SlotOf(k, pid, d))
            && (pid in k'.pinDirs <==> pid in k.pinDirs && (SlotOf(k, pid, Upload).pinned || SlotOf(k, pid, Download).pinned))
  {
    PinnedIffInPins(k, pid, Upload);
    PinnedIffInPins(k, pid, Download);
    var k' := RemovePinDir(k, pid);
    forall p | p in k'.pins ensures PinOk(k', p) {
      assert PinOk(k, p);
      if p.pid == pid {
        match p.dir
        case Upload => assert p == At(pid, Upload);
        case Download => assert p == At(pid, Download);
      }
    }
  }
}
