/** The per-direction token bucket of the packet filter.
    `RateState` is the pair of maps the program loads with; `ApplyRateLimit` is its one
    locked section, computed in unsigned 64-bit arithmetic.  `Step` is the same bucket in
    mathematical integers: the method is proved equal to it, and the laws of the bucket
    (BucketLaws.dfy, BucketSmp.dfy) are proved of `Step`. */
module TokenBucket {

  const U32: nat := 0x1_0000_0000
  const U64: nat := 0x1_0000_0000_0000_0000
  const NS: nat := 1_000_000_000

  type Word32 = x: nat | x < U32
  type Word64 = x: nat | x < U64

  datatype Direction = Upload | Download

  datatype State = State(tokens: nat, last: Word64)

  /** A packet as the locked section sees it: the clock value read before the lock, and its size. */
  datatype Packet = Packet(now: Word64, size: Word32)

  const ZERO := State(0, 0)

  function Min(a: int, b: int): int { if a <= b then a else b }

  /** kbit/s to byte/s. */
  function LimitBps(kbps: Word32): (bytes: nat)
    ensures 8 * bytes == 1000 * kbps
  {
    kbps * 1000 / 8
  }

  /** The unsigned difference `now - last`, which wraps when the clock value is older. */
  function ElapsedNs(now: Word64, last: Word64): Word64 {
    if last <= now then now - last else now + U64 - last
  }

  function Refill(rate: nat, elapsedNs: nat): nat {
    rate * Min(elapsedNs / 1000, 1_000_000) / 1_000_000
  }

  lemma MulMono(a: nat, x: int, y: int)
    requires x <= y
    ensures a * x <= a * y
  {}

  /** A refill is at most one second's worth and at most the exact amount for the time that
      passed, and it falls short of the exact amount (time capped at 1 s) by at most one byte
      plus one microsecond's worth. */
  lemma RefillBounds(rate: nat, elapsedNs: nat)
    ensures Refill(rate, elapsedNs) <= rate
    ensures NS * Refill(rate, elapsedNs) <= rate * elapsedNs
    ensures elapsedNs >= NS ==> Refill(rate, elapsedNs) == rate
    ensures rate * Min(elapsedNs, NS) <= NS * Refill(rate, elapsedNs) + NS + 1000 * rate
  {
    var us := Min(elapsedNs / 1000, 1_000_000);
    var q := rate * us;
    MulMono(rate, us, 1_000_000);
    MulMono(rate, 1000 * us, elapsedNs);
    MulMono(rate, Min(elapsedNs, NS), 1000 * us + 1000);
    assert rate * (1000 * us) == 1000 * q;
    assert rate * (1000 * us + 1000) == 1000 * q + 1000 * rate;
  }

  lemma RefillMonotone(low: nat, high: nat, elapsedNs: nat)
    requires low <= high
    ensures Refill(low, elapsedNs) <= Refill(high, elapsedNs)
  {
    var us := Min(elapsedNs / 1000, 1_000_000);
    assert low * us <= high * us;
  }

  /** A rate in bytes per second and the whole bytes refilled after a number of nanoseconds. */
  datatype RawMeter = RawMeter(rate: nat, refill: nat -> nat)

  ghost predicate RefillsWithin(m: RawMeter, elapsedNs: nat) {
    && NS * m.refill(elapsedNs) <= m.rate * elapsedNs
    && m.rate * Min(elapsedNs, NS) <= NS * m.refill(elapsedNs) + NS + 1000 * m.rate
  }

  /** What the laws of the bucket need of its refill: never more than a second's worth, exactly
      that after a second or more, never ahead of the exact amount, and behind it (time capped
      at 1 s) by at most one byte plus one microsecond's worth. */
  ghost predicate Sound(m: RawMeter) {
    && (forall e: nat :: m.refill(e) <= m.rate && (e >= NS ==> m.refill(e) == m.rate))
    && (forall e: nat :: RefillsWithin(m, e))
  }

  type Meter = m: RawMeter | Sound(m) ghost witness MeterOf(0)

  /** The meter of a limit.  Everything below about `Meter`s is about these. */
  function MeterOf(kbps: Word32): (m: RawMeter)
    ensures Sound(m) && m.rate == LimitBps(kbps)
  {
    var rate := LimitBps(kbps);
    var m := RawMeter(rate, (e: nat) => Refill(rate, e));
    assert Sound(m) by {
      forall e: nat
        ensures RefillsWithin(m, e) && m.refill(e) <= rate && (e >= NS ==> m.refill(e) == rate)
      {
        RefillBounds(rate, e);
      }
    }
    m
  }

  ghost predicate Slower(low: Meter, high: Meter) {
    low.rate <= high.rate && forall e: nat :: low.refill(e) <= high.refill(e)
  }

  lemma LowerLimitIsSlower(low: Word32, high: Word32)
    requires low <= high
    ensures Slower(MeterOf(low), MeterOf(high))
  {
    forall e: nat
      ensures MeterOf(low).refill(e) <= MeterOf(high).refill(e)
    {
      RefillMonotone(LimitBps(low), LimitBps(high), e);
    }
  }

  function Level(m: Meter, s: State, now: Word64): nat {
    Min(s.tokens + m.refill(ElapsedNs(now, s.last)), 2 * m.rate)
  }

  predicate Admits(m: Meter, s: State, p: Packet) { p.size <= Level(m, s, p.now) }

  function Step(m: Meter, s: State, p: Packet): State {
    var level := Level(m, s, p.now);
    State(if Admits(m, s, p) then level - p.size else level, p.now)
  }

  /** The state after the first `n` packets, and what was let through by then. */
  function StateAt(m: Meter, s: State, ps: seq<Packet>, n: nat): State
    requires n <= |ps|
  {
    if n == 0 then s else Step(m, StateAt(m, s, ps, n - 1), ps[n - 1])
  }

  predicate AdmitsAt(m: Meter, s: State, ps: seq<Packet>, i: nat)
    requires i < |ps|
  {
    Admits(m, StateAt(m, s, ps, i), ps[i])
  }

  function BytesAt(m: Meter, s: State, ps: seq<Packet>, n: nat): nat
    requires n <= |ps|
  {
    if n == 0 then 0
    else BytesAt(m, s, ps, n - 1) + (if AdmitsAt(m, s, ps, n - 1) then ps[n - 1].size else 0)
  }

  function CountAt(m: Meter, s: State, ps: seq<Packet>, n: nat): nat
    requires n <= |ps|
  {
    if n == 0 then 0
    else CountAt(m, s, ps, n - 1) + (if AdmitsAt(m, s, ps, n - 1) then 1 else 0)
  }

  // Unsigned 64-bit arithmetic, as the compiled program does it.

  function Add64(a: Word64, b: Word64): Word64 { if a + b < U64 then a + b else a + b - U64 }

  function Sub64(a: Word64, b: Word64): Word64 { if b <= a then a - b else a - b + U64 }

  function Mul64(a: Word64, b: Word64): Word64 { a * b % U64 }

  lemma Mul64Exact(a: Word64, b: Word64)
    requires a * b < U64
    ensures Mul64(a, b) == a * b
  {}

  function MachineLimit(kbps: Word32): (r: Word64)
    ensures r == LimitBps(kbps)
  {
    Mul64Exact(kbps, 1000);
    Mul64(kbps, 1000) / 8
  }

  /** The refill as the program computes it agrees with the mathematical one for every limit,
      whatever the two clock values. */
  function MachineRefill(kbps: Word32, now: Word64, last: Word64): (r: Word64)
    ensures r == Refill(LimitBps(kbps), ElapsedNs(now, last)) <= LimitBps(kbps)
  {
    var us := Sub64(now, last) / 1000;
    var capped: Word64 := if us > 1_000_000 then 1_000_000 else us;
    var limit := MachineLimit(kbps);
    MulMono(limit, capped, 1_000_000);
    Mul64Exact(limit, capped);
    RefillBounds(limit, ElapsedNs(now, last));
    Mul64(limit, capped) / 1_000_000
  }

  function MachineDepth(kbps: Word32): (r: Word64)
    ensures r == 2 * LimitBps(kbps) < U64 / 2
  {
    Mul64Exact(MachineLimit(kbps), 2);
    Mul64(MachineLimit(kbps), 2)
  }

  /** `struct rate_limit_state`: one direction's entry of the `rate_state` map. */
  class RateLimitState {
    var tokens: Word64
    var lastUpdateNs: Word64

    ghost predicate Valid(kbps: Word32)
      reads this
    {
      tokens <= 2 * LimitBps(kbps)
    }

    ghost function Bucket(): State
      reads this
    {
      State(tokens, lastUpdateNs)
    }

    constructor ()
      ensures Bucket() == ZERO
    {
      tokens, lastUpdateNs := 0, 0;
    }

    /** The locked section.  Every 64-bit sum and product equals the mathematical one, so the
        bucket moves exactly as `Step` says; only the time difference may wrap. */
    method ApplyRateLimit(kbps: Word32, now: Word64, size: Word32) returns (allow: bool)
      requires Valid(kbps)
      modifies this
      ensures Valid(kbps)
      ensures Bucket() == Step(MeterOf(kbps), old(Bucket()), Packet(now, size))
      ensures allow == Admits(MeterOf(kbps), old(Bucket()), Packet(now, size))
    {
      var tokensToAdd := MachineRefill(kbps, now, lastUpdateNs);
      tokens := Add64(tokens, tokensToAdd);
      lastUpdateNs := now;
      var maxTokens := MachineDepth(kbps);
      if tokens > maxTokens {
        tokens := maxTokens;
      }
      allow := false;
      if tokens >= size {
        tokens := Sub64(tokens, size);
        allow := true;
      }
    }
  }

  /** One loaded program object: its two limits, written once before attaching, and the two
      map entries. */
  class Filter {
    const uploadKbps: Word32
    const downloadKbps: Word32
    const upload: RateLimitState
    const download: RateLimitState

    ghost predicate Valid()
      reads this, upload, download
    {
      upload != download && upload.Valid(uploadKbps) && download.Valid(downloadKbps)
    }

    constructor (uploadKbps: Word32, downloadKbps: Word32)
      ensures Valid() && fresh(upload) && fresh(download)
      ensures this.uploadKbps == uploadKbps && this.downloadKbps == downloadKbps
      ensures upload.Bucket() == download.Bucket() == ZERO
    {
      this.uploadKbps, this.downloadKbps := uploadKbps, downloadKbps;
      upload := new RateLimitState();
      download := new RateLimitState();
    }

    method Egress(now: Word64, len: Word32) returns (allow: bool)
      requires Valid()
      modifies upload
      ensures Valid()
      ensures upload.Bucket() == Step(MeterOf(uploadKbps), old(upload.Bucket()), Packet(now, len))
      ensures allow == Admits(MeterOf(uploadKbps), old(upload.Bucket()), Packet(now, len))
    {
      allow := upload.ApplyRateLimit(uploadKbps, now, len);
    }

    method Ingress(now: Word64, len: Word32) returns (allow: bool)
      requires Valid()
      modifies download
      ensures Valid()
      ensures download.Bucket() == Step(MeterOf(downloadKbps), old(download.Bucket()), Packet(now, len))
      ensures allow == Admits(MeterOf(downloadKbps), old(download.Bucket()), Packet(now, len))
    {
      allow := download.ApplyRateLimit(downloadKbps, now, len);
    }
  }
}
