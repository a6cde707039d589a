/** The kernel as pidnl sees it: the `pidnl` cgroup and its children, BPF links attached to
    child cgroups, and pins of links in bpffs.  Three rules are the kernel's own: removing a
    cgroup detaches its programs, a link with no pin and no open descriptor is detached, and a
    pin path in use cannot be pinned again. */
module Kernel {
  import opened Text
  import opened TokenBucket

  const UNLIMITED: Word32 := 0xffff_ffff

  datatype Option<+T> = None | Some(value: T)

  /** `pidnl/<pid>/egress` or `pidnl/<pid>/ingress` below the bpffs mount. */
  datatype PinPath = At(pid: int, dir: Direction)

  /** A link object: made for one cgroup and direction, with the limit in its own map. */
  datatype Link = Link(path: PinPath, kbps: Word32, attached: bool)

  datatype KernelState = KernelState(
    root: bool, children: set<string>, links: map<nat, Link>,
    pins: map<PinPath, nat>, pinDirs: set<int>, next: nat)

  /** The last component of `pidnl/<pid>`. */
  function Name(pid: int): string
    requires pid > 0
  {
    Decimal(pid)
  }

  /** What holds between operations: an attached program is attached to an existing cgroup and
      pinned at its own path, and a path pins a link made for it. */
  ghost predicate Inv(k: KernelState) {
    && (k.children != {} ==> k.root)
    && (forall id :: id in k.links && k.links[id].attached ==> InForce(k, id))
    && (forall p :: p in k.pins ==> PinOk(k, p))
    && (forall id :: id in k.links ==> id < k.next)
  }

  predicate InForce(k: KernelState, id: nat)
    requires id in k.links
  {
    var l := k.links[id];
    HasCgroup(k, l.path.pid) && l.kbps != UNLIMITED && l.path in k.pins && k.pins[l.path] == id
  }

  predicate PinOk(k: KernelState, p: PinPath)
    requires p in k.pins
  {
    k.pins[p] in k.links && k.links[k.pins[p]].path == p && p.pid in k.pinDirs
  }

  // ---- what a PID looks like ------------------------------------------------------------

  /** One direction of one PID: is its pin path taken, and which limit is in force. */
  datatype Slot = Slot(pinned: bool, limit: Option<Word32>)

  function SlotOf(k: KernelState, pid: int, d: Direction): Slot {
    var p := At(pid, d);
    if p !in k.pins || k.pins[p] !in k.links then Slot(false, None)
    else
      var l := k.links[k.pins[p]];
      Slot(true, if l.attached then Some(l.kbps) else None)
  }

  predicate HasCgroup(k: KernelState, pid: int) { pid > 0 && Name(pid) in k.children }

  /** Nothing about any other PID differs. */
  ghost predicate SameElsewhere(j: KernelState, k: KernelState, pid: int) {
    && (forall q :: q != pid && q > 0 ==> (HasCgroup(j, q) <==> HasCgroup(k, q)))
    && (forall q, d :: q != pid ==> SlotOf(j, q, d) == SlotOf(k, q, d))
    && (forall q :: q != pid ==> (q in j.pinDirs <==> q in k.pinDirs))
  }

  /** The programs a query of the cgroup finds. */
  function Programs(k: KernelState, pid: int, d: Direction): set<nat> {
    set id | id in k.links && k.links[id].attached && k.links[id].path == At(pid, d)
  }

  lemma OnlyOne(s: set<nat>, x: nat, y: nat)
    requires |s| == 1 && x in s && y in s
    ensures x == y
  {
    assert |s - {x}| == 0;
    assert y !in s - {x};
  }

  /** `read_limit_from_cgroup_progs`: the query has room for one program and fails if there are
      more; the limit is read from that program's own map. */
  function ReadLimit(k: KernelState, pid: int, d: Direction): Option<Word32> {
    var s := Programs(k, pid, d);
    if |s| == 1 then
      assert forall x, y :: x in s && y in s ==> x == y by {
        forall x, y | x in s && y in s ensures x == y { OnlyOne(s, x, y); }
      }
      var id :| id in s;
      Some(k.links[id].kbps)
    else None
  }

  function OrUnlimited(limit: Option<Word32>): Word32 {
    if limit.Some? then limit.value else UNLIMITED
  }

  /** `get_rate_limits_from_cgroup`. */
  function GetLimits(k: KernelState, pid: int): (Word32, Word32) {
    if !HasCgroup(k, pid) then (UNLIMITED, UNLIMITED)
    else (OrUnlimited(ReadLimit(k, pid, Upload)), OrUnlimited(ReadLimit(k, pid, Download)))
  }

  lemma ReadIsSlot(k: KernelState, pid: int, d: Direction)
    requires Inv(k)
    ensures ReadLimit(k, pid, d) == SlotOf(k, pid, d).limit
  {
    var s := Programs(k, pid, d);
    if SlotOf(k, pid, d).limit.Some? {
      assert PinOk(k, At(pid, d));
      assert s == {k.pins[At(pid, d)]};
    } else {
      assert s == {};
    }
  }

  /** Reading the limits back finds exactly what is in force. */
  lemma GetIsSlots(k: KernelState, pid: int)
    requires Inv(k)
    ensures GetLimits(k, pid)
         == (OrUnlimited(SlotOf(k, pid, Upload).limit), OrUnlimited(SlotOf(k, pid, Download).limit))
  {
    ReadIsSlot(k, pid, Upload);
    ReadIsSlot(k, pid, Download);
  }

  lemma GetElsewhere(j: KernelState, k: KernelState, pid: int, q: int)
    requires Inv(j) && Inv(k) && SameElsewhere(j, k, pid) && q != pid
    ensures GetLimits(j, q) == GetLimits(k, q)
  {
    GetIsSlots(j, q);
    GetIsSlots(k, q);
  }

  // ---- primitives -----------------------------------------------------------------------

  function AddCgroup(k: KernelState, pid: int): KernelState
    requires pid > 0
  {
    k.(children := k.children + {Name(pid)})
  }

  function Off(k: KernelState, ids: set<nat>): map<nat, Link> {
    map id | id in k.links :: if id in ids then k.links[id].(attached := false) else k.links[id]
  }

  function RemoveCgroup(k: KernelState, pid: int): KernelState
    requires pid > 0
  {
    k.(children := k.children - {Name(pid)},
       links := map id | id in k.links ::
                  if k.links[id].path.pid == pid then k.links[id].(attached := false) else k.links[id])
  }

  function DetachLink(k: KernelState, path: PinPath): KernelState {
    if path in k.pins then k.(links := Off(k, {k.pins[path]})) else k
  }

  /** Unlinking a pin drops the link's last reference, which detaches it. */
  function Unpin(k: KernelState, path: PinPath): KernelState {
    if path in k.pins then k.(pins := k.pins - {path}, links := Off(k, {k.pins[path]})) else k
  }

  function RemovePinDir(k: KernelState, pid: int): KernelState {
    if At(pid, Upload) in k.pins || At(pid, Download) in k.pins then k else k.(pinDirs := k.pinDirs - {pid})
  }

  function Attach(k: KernelState, path: PinPath, kbps: Word32): KernelState {
    k.(links := k.links[k.next := Link(path, kbps, true)], next := k.next + 1)
  }

  function Pin(k: KernelState, path: PinPath, id: nat): KernelState {
    k.(pins := k.pins[path := id])
  }

  lemma NamesDiffer(p: int, q: int)
    requires p > 0 && q > 0 && p != q
    ensures Name(p) != Name(q)
  {
    if Name(p) == Name(q) {
      DecimalInjective(p, q);
    }
  }

  lemma CgroupsElsewhere(k: KernelState, k': KernelState, pid: int)
    requires pid > 0
    requires k'.children == k.children + {Name(pid)} || k'.children == k.children - {Name(pid)}
    ensures forall q :: q != pid && q > 0 ==> (HasCgroup(k, q) <==> HasCgroup(k', q))
  {
    forall q | q != pid && q > 0 ensures HasCgroup(k, q) <==> HasCgroup(k', q) {
      NamesDiffer(pid, q);
    }
  }

  lemma AddCgroupFacts(k: KernelState, pid: int)
    requires Inv(k) && pid > 0 && k.root
    ensures var k' := AddCgroup(k, pid);
            Inv(k') && SameElsewhere(k, k', pid) && HasCgroup(k', pid)
            && (forall d :: SlotOf(k', pid, d) == SlotOf(k, pid, d))
  {
    CgroupsElsewhere(k, AddCgroup(k, pid), pid);
  }

  lemma RemoveCgroupFacts(k: KernelState, pid: int)
    requires Inv(k) && pid > 0
    ensures var k' := RemoveCgroup(k, pid);
            Inv(k') && SameElsewhere(k, k', pid) && !HasCgroup(k', pid)
            && (forall d :: SlotOf(k', pid, d) == Slot(SlotOf(k, pid, d).pinned, None))
  {
    CgroupsElsewhere(k, RemoveCgroup(k, pid), pid);
    assert forall p :: p in k.pins ==> PinOk(k, p);
  }

  lemma DetachFacts(k: KernelState, pid: int, d: Direction)
    requires Inv(k)
    ensures var k' := DetachLink(k, At(pid, d));
            Inv(k') && SameElsewhere(k, k', pid)
            && (forall o :: SlotOf(k', pid, o) ==
                  if o == d then Slot(SlotOf(k, pid, d).pinned, None) else SlotOf(k, pid, o))
  {
    assert forall p :: p in k.pins ==> PinOk(k, p);
  }

  lemma UnpinFacts(k: KernelState, pid: int, d: Direction)
    requires Inv(k)
    ensures var k' := Unpin(k, At(pid, d));
            Inv(k') && SameElsewhere(k, k', pid)
            && (forall o :: SlotOf(k', pid, o) == if o == d then Slot(false, None) else SlotOf(k, pid, o))
  {
    assert forall p :: p in k.pins ==> PinOk(k, p);
  }

  /** Attached and pinned: once both have succeeded. */
  lemma AttachFacts(k: KernelState, pid: int, d: Direction, kbps: Word32)
    requires Inv(k) && HasCgroup(k, pid) && pid in k.pinDirs && kbps != UNLIMITED
    requires At(pid, d) !in k.pins
    ensures var k' := Pin(Attach(k, At(pid, d), kbps), At(pid, d), k.next);
            Inv(k') && SameElsewhere(k, k', pid)
            && (forall o :: SlotOf(k', pid, o) == if o == d then Slot(true, Some(kbps)) else SlotOf(k, pid, o))
  {
    assert k.next !in k.links;
    assert forall p :: p in k.pins ==> PinOk(k, p);
  }
}
