/** The filter on several CPUs.  The clock is read before the lock is taken, so a CPU may apply
    an older clock value than the one stored.  Every write of the locked section is a step of its
    own, with the reads it depends on; the spin lock is the only thing that orders them.  A CPU
    here carries one packet at a time: where an interrupt takes up a second packet on the same
    processor before the first has the lock, the two count as two CPUs. */
module BucketSmp {
  import opened TokenBucket
  import opened BucketLaws

  /** Where one CPU is inside the filter. */
  datatype Pc =
    | Idle
    | Clocked(p: Packet)            // clock read, lock not yet held
    | Locked(p: Packet)             // lock held, nothing written
    | Refilled(p: Packet)           // tokens added, clock value not yet written
    | Stamped(p: Packet)
    | Capped(p: Packet)
    | Charged(p: Packet)

  predicate Inside(pc: Pc) { !pc.Idle? && !pc.Clocked? }

  datatype Holder = Free | Held(cpu: nat)

  /** `log` and `verdicts` record, in lock order, the packets taken up and what was decided;
      `lag` the longest wait so far between reading the clock and getting the lock. */
  datatype System = System(
    clock: Word64, bucket: State, holder: Holder, pcs: map<nat, Pc>,
    log: seq<Packet>, verdicts: seq<bool>, lag: nat)

  datatype Action =
    | Tick(ns: nat)
    | ReadClock(cpu: nat, size: Word32)
    | Lock(cpu: nat)
    | DoRefill(cpu: nat)
    | DoStamp(cpu: nat)
    | DoCap(cpu: nat)
    | DoCharge(cpu: nat)
    | Unlock(cpu: nat)

  const BOOT := System(0, ZERO, Free, map[], [], [], 0)

  function PcOf(s: System, cpu: nat): Pc { if cpu in s.pcs then s.pcs[cpu] else Idle }

  predicate Enabled(s: System, a: Action) {
    match a
    case Tick(ns) => s.clock + ns < U64
    case ReadClock(c, _) => PcOf(s, c).Idle?
    case Lock(c) => PcOf(s, c).Clocked? && s.holder.Free?
    case DoRefill(c) => PcOf(s, c).Locked?
    case DoStamp(c) => PcOf(s, c).Refilled?
    case DoCap(c) => PcOf(s, c).Stamped?
    case DoCharge(c) => PcOf(s, c).Capped?
    case Unlock(c) => PcOf(s, c).Charged?
  }

  function Act(m: Meter, s: System, a: Action): System
    requires Enabled(s, a)
  {
    match a
    case Tick(ns) => s.(clock := s.clock + ns)
    case ReadClock(c, size) => s.(pcs := s.pcs[c := Clocked(Packet(s.clock, size))])
    case Lock(c) =>
      var p := PcOf(s, c).p;
      var wait := s.clock - p.now;
      s.(holder := Held(c), pcs := s.pcs[c := Locked(p)], log := s.log + [p],
         lag := if wait > s.lag then wait else s.lag)
    case DoRefill(c) =>
      var p := PcOf(s, c).p;
      var add := m.refill(ElapsedNs(p.now, s.bucket.last));
      s.(bucket := s.bucket.(tokens := s.bucket.tokens + add), pcs := s.pcs[c := Refilled(p)])
    case DoStamp(c) =>
      var p := PcOf(s, c).p;
      s.(bucket := s.bucket.(last := p.now), pcs := s.pcs[c := Stamped(p)])
    case DoCap(c) =>
      var p := PcOf(s, c).p;
      s.(bucket := s.bucket.(tokens := Min(s.bucket.tokens, 2 * m.rate)), pcs := s.pcs[c := Capped(p)])
    case DoCharge(c) =>
      var p := PcOf(s, c).p;
      var ok := p.size <= s.bucket.tokens;
      s.(bucket := s.bucket.(tokens := if ok then s.bucket.tokens - p.size else s.bucket.tokens),
         pcs := s.pcs[c := Charged(p)], verdicts := s.verdicts + [ok])
    case Unlock(c) => s.(holder := Free, pcs := s.pcs[c := Idle])
  }

  /** The system after a schedule, if every action of it was enabled in turn. */
  datatype Outcome = Stuck | At(s: System)

  function After(m: Meter, actions: seq<Action>): Outcome {
    if actions == [] then At(BOOT)
    else
      var a := actions[|actions| - 1];
      match After(m, actions[..|actions| - 1])
      case Stuck => Stuck
      case At(s) => if Enabled(s, a) then At(Act(m, s, a)) else Stuck
  }

  // ---- the lock makes the section atomic ------------------------------------------------

  /** The recorded verdicts are those of the log run one packet at a time. */
  ghost predicate Recorded(m: Meter, log: seq<Packet>, verdicts: seq<bool>) {
    && |verdicts| <= |log|
    && forall i :: 0 <= i < |verdicts| ==> verdicts[i] == AdmitsAt(m, ZERO, log, i)
  }

  /** The bucket part way through the section, in terms of the bucket before it. */
  predicate PartWay(m: Meter, before: State, pc: Pc, now: State)
    requires Inside(pc)
  {
    var level := Level(m, before, pc.p.now);
    match pc
    case Locked(p) => now == before
    case Refilled(p) => now == State(before.tokens + m.refill(ElapsedNs(p.now, before.last)), before.last)
    case Stamped(p) => now == State(before.tokens + m.refill(ElapsedNs(p.now, before.last)), p.now)
    case Capped(p) => now == State(level, p.now)
    case Charged(p) => now == Step(m, before, p)
  }

  ghost predicate Mutex(s: System) {
    forall c :: Inside(PcOf(s, c)) <==> s.holder == Held(c)
  }

  ghost predicate ClocksRead(s: System) {
    && (forall c :: !PcOf(s, c).Idle? ==> PcOf(s, c).p.now <= s.clock)
    && (forall i :: 0 <= i < |s.log| ==> s.log[i].now <= s.clock)
    && (forall i :: 0 <= i < |s.log| ==> LastAt(0, s.log, i) - s.log[i].now <= s.lag)
  }

  /** The shared bucket is the sequential run of the log, but for the section in progress. */
  ghost predicate Serial(m: Meter, s: System) {
    match s.holder
    case Free => s.bucket == RunAlone(m, s.log) && |s.verdicts| == |s.log|
    case Held(c) =>
      && Inside(PcOf(s, c))
      && |s.log| > 0 && s.log[|s.log| - 1] == PcOf(s, c).p
      && PartWay(m, StateAt(m, ZERO, s.log, |s.log| - 1), PcOf(s, c), s.bucket)
      && |s.verdicts| == (if PcOf(s, c).Charged? then |s.log| else |s.log| - 1)
  }

  ghost predicate Inv(m: Meter, s: System) {
    Mutex(s) && ClocksRead(s) && Serial(m, s) && Recorded(m, s.log, s.verdicts)
  }

  lemma RecordedLonger(m: Meter, log: seq<Packet>, p: Packet, verdicts: seq<bool>)
    requires Recorded(m, log, verdicts)
    ensures Recorded(m, log + [p], verdicts)
  {
    forall i | 0 <= i < |verdicts|
      ensures AdmitsAt(m, ZERO, log + [p], i) == AdmitsAt(m, ZERO, log, i)
    {
      PrefixState(m, log, [p], i);
    }
  }

  lemma MutexKept(m: Meter, s: System, a: Action)
    requires Mutex(s) && Enabled(s, a)
    ensures Mutex(Act(m, s, a))
  {}

  lemma ClocksKept(m: Meter, s: System, a: Action)
    requires ClocksRead(s) && Enabled(s, a)
    ensures ClocksRead(Act(m, s, a))
  {
    var t := Act(m, s, a);
    match a
    case Lock(c) =>
      var p, n := PcOf(s, c).p, |s.log|;
      assert t.log == s.log + [p];
      forall i | 0 <= i < |t.log|
        ensures t.log[i].now <= t.clock && LastAt(0, t.log, i) - t.log[i].now <= t.lag
      {
        assert LastAt(0, t.log, i) == LastAt(0, s.log, i);
        if i < n {
          assert t.log[i] == s.log[i];
        } else if n > 0 {
          assert s.log[n - 1].now <= s.clock;
        }
      }
      assert forall d :: d != c ==> PcOf(t, d) == PcOf(s, d);
    case Tick(_) =>
      assert forall d :: PcOf(t, d) == PcOf(s, d);
    case _ =>
      assert forall d :: PcOf(t, d) == PcOf(s, d) || a.cpu == d;
  }

  lemma LockKept(m: Meter, s: System, c: nat)
    requires Inv(m, s) && Enabled(s, Lock(c))
    ensures Serial(m, Act(m, s, Lock(c)))
  {
    var p := PcOf(s, c).p;
    PrefixState(m, s.log, [p], |s.log|);
  }

  lemma RefillKept(m: Meter, s: System, c: nat)
    requires Inv(m, s) && Enabled(s, DoRefill(c))
    ensures Serial(m, Act(m, s, DoRefill(c)))
  {
    assert s.holder == Held(c);
  }

  lemma StampKept(m: Meter, s: System, c: nat)
    requires Inv(m, s) && Enabled(s, DoStamp(c))
    ensures Serial(m, Act(m, s, DoStamp(c)))
  {
    assert s.holder == Held(c);
  }

  lemma CapKept(m: Meter, s: System, c: nat)
    requires Inv(m, s) && Enabled(s, DoCap(c))
    ensures Serial(m, Act(m, s, DoCap(c)))
  {
    assert s.holder == Held(c);
  }

  lemma ChargeKept(m: Meter, s: System, c: nat)
    requires Inv(m, s) && Enabled(s, DoCharge(c))
    ensures Serial(m, Act(m, s, DoCharge(c)))
  {
    assert s.holder == Held(c);
    ChargeIsStep(m, StateAt(m, ZERO, s.log, |s.log| - 1), PcOf(s, c).p, s.bucket);
  }

  lemma ChargeIsStep(m: Meter, before: State, p: Packet, now: State)
    requires now == State(Level(m, before, p.now), p.now)
    ensures Step(m, before, p)
         == now.(tokens := if p.size <= now.tokens then now.tokens - p.size else now.tokens)
    ensures Admits(m, before, p) == (p.size <= now.tokens)
  {}

  lemma UnlockKept(m: Meter, s: System, c: nat)
    requires Inv(m, s) && Enabled(s, Unlock(c))
    ensures Serial(m, Act(m, s, Unlock(c)))
  {
    assert s.holder == Held(c);
  }

  lemma SerialKept(m: Meter, s: System, a: Action)
    requires Inv(m, s) && Enabled(s, a)
    ensures Serial(m, Act(m, s, a))
  {
    match a
    case Tick(_) =>
    case ReadClock(c, _) => assert s.holder != Held(c);
    case Lock(c) => LockKept(m, s, c);
    case DoRefill(c) => RefillKept(m, s, c);
    case DoStamp(c) => StampKept(m, s, c);
    case DoCap(c) => CapKept(m, s, c);
    case DoCharge(c) => ChargeKept(m, s, c);
    case Unlock(c) => UnlockKept(m, s, c);
  }

  lemma RecordedCharge(m: Meter, s: System, c: nat)
    requires Inv(m, s) && Enabled(s, DoCharge(c))
    ensures Recorded(m, s.log, s.verdicts + [PcOf(s, c).p.size <= s.bucket.tokens])
  {
    assert s.holder == Held(c);
    ChargeIsStep(m, StateAt(m, ZERO, s.log, |s.log| - 1), PcOf(s, c).p, s.bucket);
  }

  lemma RecordedKept(m: Meter, s: System, a: Action)
    requires Inv(m, s) && Enabled(s, a)
    ensures Recorded(m, Act(m, s, a).log, Act(m, s, a).verdicts)
  {
    match a
    case Lock(c) => RecordedLonger(m, s.log, PcOf(s, c).p, s.verdicts);
    case DoCharge(c) => RecordedCharge(m, s, c);
    case _ =>
  }

  /** Every schedule of any number of CPUs keeps the invariant: at most one CPU inside, and the
      bucket and verdicts those of the log run one packet at a time. */
  lemma {:induction false} Reachable(m: Meter, actions: seq<Action>)
    requires After(m, actions).At?
    ensures Inv(m, After(m, actions).s)
  {
    if actions != [] {
      var init, a := actions[..|actions| - 1], actions[|actions| - 1];
      Reachable(m, init);
      var s := After(m, init).s;
      MutexKept(m, s, a);
      ClocksKept(m, s, a);
      SerialKept(m, s, a);
      RecordedKept(m, s, a);
    }
  }

  /** Some CPU has added its refill and not yet applied the cap. */
  predicate Uncapped(s: System) {
    s.holder.Held? && (PcOf(s, s.holder.cpu).Refilled? || PcOf(s, s.holder.cpu).Stamped?)
  }

  lemma DepthIn(m: Meter, s: System)
    requires Inv(m, s)
    ensures s.bucket.tokens <= (if Uncapped(s) then 3 else 2) * m.rate
  {
    match s.holder
    case Free => NeverAboveDepth(m, ZERO, s.log, |s.log|);
    case Held(c) =>
      NeverAboveDepth(m, ZERO, s.log, |s.log| - 1);
      StepBound(m, StateAt(m, ZERO, s.log, |s.log| - 1), PcOf(s, c).p);
  }

  /** In every reachable state the bucket is within its depth, except for the moment between
      one CPU's refill and its cap, when it may hold one second's worth more. */
  lemma DepthEverywhere(m: Meter, actions: seq<Action>)
    requires After(m, actions).At?
    ensures var s := After(m, actions).s;
            s.bucket.tokens <= (if Uncapped(s) then 3 else 2) * m.rate
  {
    Reachable(m, actions);
    DepthIn(m, After(m, actions).s);
  }

  // ---- the rate bound -------------------------------------------------------------------

  /** Bytes let through, counted from the first `n` recorded verdicts. */
  function Passed(log: seq<Packet>, verdicts: seq<bool>, n: nat): nat
    requires n <= |verdicts| <= |log|
  {
    if n == 0 then 0 else Passed(log, verdicts, n - 1) + (if verdicts[n - 1] then log[n - 1].size else 0)
  }

  lemma {:induction false} PassedIsBytes(m: Meter, log: seq<Packet>, verdicts: seq<bool>, n: nat)
    requires n <= |verdicts| && Recorded(m, log, verdicts)
    ensures Passed(log, verdicts, n) == BytesAt(m, ZERO, log, n)
  {
    if n > 0 {
      PassedIsBytes(m, log, verdicts, n - 1);
    }
  }

  /** In every reachable state, with a section in progress or not, the verdicts given so far are
      those of the log run sequentially. */
  lemma VerdictsRecorded(m: Meter, actions: seq<Action>, s: System)
    requires After(m, actions) == At(s)
    ensures Recorded(m, s.log, s.verdicts)
  {
    Reachable(m, actions);
  }

  /** In every state of every interleaving, with k of the packets decided applied against an older
      clock value and B ns moved back in total: at most (k + 1) seconds' worth, plus the rate
      times the time from the first packet to the last and B. */
  lemma SmpRateBound(m: Meter, actions: seq<Action>, s: System, n: nat)
    requires After(m, actions) == At(s) && 0 < n == |s.verdicts|
    ensures n <= |s.log|
    ensures NS * Passed(s.log, s.verdicts, n)
         <= Credit(m.rate, BackCount(0, s.log, n) + 1, s.log[n - 1].now - s.log[0].now + BackNs(0, s.log, n))
  {
    VerdictsRecorded(m, actions, s);
    PassedIsBytes(m, s.log, s.verdicts, n);
    FreshRateBound(m, s.log, n);
  }

  /** The same between any two packets of the log, whatever came before: the depth, a second's
      worth for each older clock value after the first of them, and the rate times the time
      between them and what was moved back meanwhile. */
  lemma SmpStretch(m: Meter, actions: seq<Action>, s: System, i: nat, j: nat)
    requires After(m, actions) == At(s) && i < j <= |s.verdicts|
    ensures |s.verdicts| <= |s.log|
    ensures NS * (Passed(s.log, s.verdicts, j) - Passed(s.log, s.verdicts, i))
         <= Credit(m.rate, BackIn(0, s.log, i, j) + 2, ForwardIn(0, s.log, i, j))
  {
    VerdictsRecorded(m, actions, s);
    PassedIsBytes(m, s.log, s.verdicts, i);
    PassedIsBytes(m, s.log, s.verdicts, j);
    Stretch(m, ZERO, s.log, i, j);
  }

  lemma {:induction false} BackWithinLag(last: Word64, ps: seq<Packet>, lag: nat, n: nat)
    requires n <= |ps|
    requires forall i :: 0 <= i < |ps| ==> LastAt(last, ps, i) - ps[i].now <= lag
    ensures BackNs(last, ps, n) <= BackCount(last, ps, n) * lag
  {
    if n > 0 {
      BackWithinLag(last, ps, lag, n - 1);
      OneMoreLag(BackCount(last, ps, n - 1), lag);
    }
  }

  lemma OneMoreLag(k: nat, lag: nat)
    ensures (k + 1) * lag == k * lag + lag
  {}

  /** The time moved back is at most the longest wait for the lock per out-of-order packet. */
  lemma BackwardCost(m: Meter, actions: seq<Action>)
    requires After(m, actions).At?
    ensures var s := After(m, actions).s;
            BackNs(0, s.log, |s.log|) <= BackCount(0, s.log, |s.log|) * s.lag
  {
    Reachable(m, actions);
    var s := After(m, actions).s;
    BackWithinLag(0, s.log, s.lag, |s.log|);
  }

  // ---- one CPU --------------------------------------------------------------------------

  ghost predicate OnCpu(actions: seq<Action>, cpu: nat) {
    forall i :: 0 <= i < |actions| ==> actions[i].Tick? || actions[i].cpu == cpu
  }

  ghost predicate Ordered(s: System, cpu: nat) {
    && InOrder(0, s.log)
    && (PcOf(s, cpu).Clocked? ==> LastAt(0, s.log, |s.log|) <= PcOf(s, cpu).p.now)
  }

  lemma OrderedKept(m: Meter, s: System, a: Action, cpu: nat)
    requires Ordered(s, cpu) && ClocksRead(s) && Enabled(s, a) && (a.Tick? || a.cpu == cpu)
    ensures Ordered(Act(m, s, a), cpu)
  {
    var t, n := Act(m, s, a), |s.log|;
    if a.Lock? {
      forall i | 0 <= i < |t.log|
        ensures !Backward(0, t.log, i)
      {
        assert LastAt(0, t.log, i) == LastAt(0, s.log, i);
        if i < n {
          assert t.log[i] == s.log[i] && !Backward(0, s.log, i);
        }
      }
    } else if a.ReadClock? && n > 0 {
      assert s.log[n - 1].now <= s.clock;
    }
  }

  /** With one packet under way at a time clock values are applied in order, so a fresh limiter's
      envelope holds with no extra term. */
  lemma {:induction false} SingleCpuInOrder(m: Meter, actions: seq<Action>, cpu: nat)
    requires After(m, actions).At? && OnCpu(actions, cpu)
    ensures Ordered(After(m, actions).s, cpu)
  {
    if actions != [] {
      var init := actions[..|actions| - 1];
      SingleCpuInOrder(m, init, cpu);
      Reachable(m, init);
      OrderedKept(m, After(m, init).s, actions[|actions| - 1], cpu);
    }
  }

  lemma SingleCpuEnvelope(m: Meter, actions: seq<Action>, s: System, n: nat, cpu: nat)
    requires After(m, actions) == At(s) && OnCpu(actions, cpu) && 0 < n == |s.verdicts|
    ensures n <= |s.log|
    ensures NS * Passed(s.log, s.verdicts, n) <= Credit(m.rate, 1, s.log[n - 1].now - s.log[0].now)
  {
    SingleCpuInOrder(m, actions, cpu);
    VerdictsRecorded(m, actions, s);
    PassedIsBytes(m, s.log, s.verdicts, n);
    FreshEnvelope(m, s.log, n);
  }

  lemma Extend(m: Meter, actions: seq<Action>, s: System, a: Action) returns (longer: seq<Action>, t: System)
    requires After(m, actions) == At(s) && Enabled(s, a)
    ensures longer == actions + [a] && t == Act(m, s, a) && After(m, longer) == At(t)
  {
    longer, t := actions + [a], Act(m, s, a);
    assert longer[..|longer| - 1] == actions;
  }

  /** A CPU that has read the clock can take its packet through a free lock undisturbed. */
  lemma Section(m: Meter, actions: seq<Action>, s: System, c: nat) returns (longer: seq<Action>, t: System)
    requires After(m, actions) == At(s) && PcOf(s, c).Clocked? && s.holder.Free?
    ensures After(m, longer) == At(t)
    ensures t.log == s.log + [PcOf(s, c).p] && t.holder.Free? && t.clock == s.clock
    ensures forall d :: PcOf(t, d) == if d == c then Idle else PcOf(s, d)
  {
    longer, t := Extend(m, actions, s, Lock(c));
    longer, t := Extend(m, longer, t, DoRefill(c));
    longer, t := Extend(m, longer, t, DoStamp(c));
    longer, t := Extend(m, longer, t, DoCap(c));
    longer, t := Extend(m, longer, t, DoCharge(c));
    longer, t := Extend(m, longer, t, Unlock(c));
  }

  /** An idle CPU can read the clock `ns` later. */
  lemma ReadLater(m: Meter, actions: seq<Action>, s: System, c: nat, ns: nat) returns (longer: seq<Action>, t: System)
    requires After(m, actions) == At(s) && PcOf(s, c).Idle? && s.clock + ns < U64
    ensures After(m, longer) == At(t) && t.clock == s.clock + ns && t.log == s.log && t.holder == s.holder
    ensures forall d :: PcOf(t, d) == if d == c then Clocked(Packet(t.clock, 0)) else PcOf(s, d)
  {
    longer, t := Extend(m, actions, s, Tick(ns));
    longer, t := Extend(m, longer, t, ReadClock(c, 0));
  }

  /** With a second CPU the order can break: CPU 0 reads the clock, CPU 1 reads it later and
      gets the lock first. */
  lemma TwoCpusCanGoBack(m: Meter) returns (actions: seq<Action>, s: System)
    ensures After(m, actions) == At(s) && BackCount(0, s.log, |s.log|) == 1
  {
    actions, s := ReadLater(m, [], BOOT, 0, 0);
    actions, s := ReadLater(m, actions, s, 1, 1);
    actions, s := Section(m, actions, s, 1);
    actions, s := Section(m, actions, s, 0);
    BackOnce(s.log);
  }

  lemma BackOnce(log: seq<Packet>)
    requires log == [Packet(1, 0), Packet(0, 0)]
    ensures BackCount(0, log, |log|) == 1
  {
    assert BackCount(0, log, 1) == 0 && Backward(0, log, 1);
  }
}
