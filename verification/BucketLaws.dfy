/** What the token bucket guarantees over whole runs of packets.  `m` is the meter of any limit;
    amounts that would be fractions of a byte are stated multiplied by NS = 10^9. */
module BucketLaws {
  import opened TokenBucket

  /** The clock value stored after `n` packets. */
  function LastAt(last: Word64, ps: seq<Packet>, n: nat): Word64
    requires n <= |ps|
  {
    if n == 0 then last else ps[n - 1].now
  }

  predicate Backward(last: Word64, ps: seq<Packet>, i: nat)
    requires i < |ps|
  {
    ps[i].now < LastAt(last, ps, i)
  }

  /** How many of the first `n` packets carried an older clock value than the one before, and
      how far the clock values moved back and forward in total. */
  function BackCount(last: Word64, ps: seq<Packet>, n: nat): nat
    requires n <= |ps|
  {
    if n == 0 then 0 else BackCount(last, ps, n - 1) + (if Backward(last, ps, n - 1) then 1 else 0)
  }

  function BackNs(last: Word64, ps: seq<Packet>, n: nat): nat
    requires n <= |ps|
  {
    if n == 0 then 0
    else BackNs(last, ps, n - 1)
         + (if Backward(last, ps, n - 1) then LastAt(last, ps, n - 1) - ps[n - 1].now else 0)
  }

  function ForwardNs(last: Word64, ps: seq<Packet>, n: nat): nat
    requires n <= |ps|
  {
    if n == 0 then 0
    else ForwardNs(last, ps, n - 1)
         + (if Backward(last, ps, n - 1) then 0 else ps[n - 1].now - LastAt(last, ps, n - 1))
  }

  ghost predicate InOrder(last: Word64, ps: seq<Packet>) {
    forall i :: 0 <= i < |ps| ==> !Backward(last, ps, i)
  }

  lemma {:induction false} ForwardIsNetPlusBack(last: Word64, ps: seq<Packet>, n: nat)
    requires n <= |ps|
    ensures ForwardNs(last, ps, n) == LastAt(last, ps, n) - last + BackNs(last, ps, n)
  {
    if n > 0 {
      ForwardIsNetPlusBack(last, ps, n - 1);
    }
  }

  lemma {:induction false} InOrderClock(last: Word64, ps: seq<Packet>, i: nat, n: nat)
    requires i <= n <= |ps|
    requires forall k :: i <= k < n ==> !Backward(last, ps, k)
    ensures BackCount(last, ps, n) == BackCount(last, ps, i) && BackNs(last, ps, n) == BackNs(last, ps, i)
    decreases n - i
  {
    if i < n {
      InOrderClock(last, ps, i, n - 1);
    }
  }

  // ---- one packet ----------------------------------------------------------------------

  function Charge(m: Meter, s: State, p: Packet): nat {
    if Admits(m, s, p) then p.size else 0
  }

  /** So many seconds' and nanoseconds' worth, in 10^-9 byte units. */
  function Credit(rate: nat, seconds: int, ns: int): int { NS * (rate * seconds) + rate * ns }

  lemma CreditAdds(rate: nat, a: int, x: int, b: int, y: int)
    ensures Credit(rate, a + b, x + y) == Credit(rate, a, x) + Credit(rate, b, y)
  {
    assert rate * (a + b) == rate * a + rate * b;
    assert rate * (x + y) == rate * x + rate * y;
  }

  /** What one packet's clock value can earn: the exact refill, or a whole second's worth if it
      is older than the stored one. */
  function Allowance(m: Meter, last: Word64, now: Word64): int {
    if now < last then Credit(m.rate, 1, 0) else Credit(m.rate, 0, now - last)
  }

  lemma StepBound(m: Meter, s: State, p: Packet)
    ensures NS * (Charge(m, s, p) + Step(m, s, p).tokens) <= NS * s.tokens + Allowance(m, s.last, p.now)
    ensures Charge(m, s, p) + Step(m, s, p).tokens <= 2 * m.rate
    ensures Charge(m, s, p) + Step(m, s, p).tokens <= s.tokens + m.rate
  {
    assert RefillsWithin(m, ElapsedNs(p.now, s.last));
  }

  lemma {:induction false} LastIsState(m: Meter, s: State, ps: seq<Packet>, n: nat)
    requires n <= |ps|
    ensures StateAt(m, s, ps, n).last == LastAt(s.last, ps, n)
  {}

  lemma {:induction false} NeverAboveDepth(m: Meter, s: State, ps: seq<Packet>, n: nat)
    requires n <= |ps| && s.tokens <= 2 * m.rate
    ensures StateAt(m, s, ps, n).tokens <= 2 * m.rate
  {
    if n > 0 {
      StepBound(m, StateAt(m, s, ps, n - 1), ps[n - 1]);
    }
  }

  // ---- rate bounds ---------------------------------------------------------------------

  /** Credit used or held so far. */
  function Spent(m: Meter, s: State, ps: seq<Packet>, n: nat): nat
    requires n <= |ps|
  {
    BytesAt(m, s, ps, n) + StateAt(m, s, ps, n).tokens
  }

  /** What the clock alone entitles a run to: the exact refill for time moved forward, and one
      second's worth for each packet with an older clock value. */
  function Entitled(m: Meter, last: Word64, ps: seq<Packet>, n: nat): int
    requires n <= |ps|
  {
    if n == 0 then 0
    else Entitled(m, last, ps, n - 1) + Allowance(m, LastAt(last, ps, n - 1), ps[n - 1].now)
  }

  lemma BytesStep(m: Meter, s: State, ps: seq<Packet>, n: nat)
    requires 0 < n <= |ps|
    ensures BytesAt(m, s, ps, n) == BytesAt(m, s, ps, n - 1) + Charge(m, StateAt(m, s, ps, n - 1), ps[n - 1])
    ensures StateAt(m, s, ps, n) == Step(m, StateAt(m, s, ps, n - 1), ps[n - 1])
  {}

  lemma SpentStep(m: Meter, s: State, ps: seq<Packet>, n: nat)
    requires 0 < n <= |ps|
    ensures NS * Spent(m, s, ps, n) - Entitled(m, s.last, ps, n)
         <= NS * Spent(m, s, ps, n - 1) - Entitled(m, s.last, ps, n - 1)
  {
    LastIsState(m, s, ps, n - 1);
    StepBound(m, StateAt(m, s, ps, n - 1), ps[n - 1]);
    BytesStep(m, s, ps, n);
  }

  lemma {:induction false} NeverAheadOfEntitled(m: Meter, s: State, ps: seq<Packet>, i: nat, j: nat)
    requires i <= j <= |ps|
    ensures NS * Spent(m, s, ps, j) - Entitled(m, s.last, ps, j)
         <= NS * Spent(m, s, ps, i) - Entitled(m, s.last, ps, i)
    decreases j - i
  {
    if i < j {
      NeverAheadOfEntitled(m, s, ps, i, j - 1);
      SpentStep(m, s, ps, j);
    }
  }

  lemma {:induction false} EntitledClosedForm(m: Meter, last: Word64, ps: seq<Packet>, n: nat)
    requires n <= |ps|
    ensures Entitled(m, last, ps, n) == Credit(m.rate, BackCount(last, ps, n), ForwardNs(last, ps, n))
  {
    if n > 0 {
      EntitledClosedForm(m, last, ps, n - 1);
      var k, ns := BackCount(last, ps, n - 1), ForwardNs(last, ps, n - 1);
      CreditAdds(m.rate, k, ns, 1, 0);
      CreditAdds(m.rate, k, ns, 0, ps[n - 1].now - LastAt(last, ps, n - 1));
    }
  }

  /** Rate bound for any order of clock values, between any two points of a run: each of the `k`
      packets with an older clock value costs at most one extra second's worth, and the time
      moved backwards can be refilled again; `t` is the time moved forward. */
  lemma RateBound(m: Meter, s: State, ps: seq<Packet>, i: nat, j: nat, k: int, t: int)
    requires i <= j <= |ps|
    requires k == BackCount(s.last, ps, j) - BackCount(s.last, ps, i)
    requires t == ForwardNs(s.last, ps, j) - ForwardNs(s.last, ps, i)
    ensures NS * Spent(m, s, ps, j) <= NS * Spent(m, s, ps, i) + Credit(m.rate, k, t)
  {
    NeverAheadOfEntitled(m, s, ps, i, j);
    EntitledOver(m, s.last, ps, i, j, k, t);
  }

  lemma EntitledOver(m: Meter, last: Word64, ps: seq<Packet>, i: nat, j: nat, k: int, t: int)
    requires i <= j <= |ps|
    requires k == BackCount(last, ps, j) - BackCount(last, ps, i)
    requires t == ForwardNs(last, ps, j) - ForwardNs(last, ps, i)
    ensures Entitled(m, last, ps, j) == Entitled(m, last, ps, i) + Credit(m.rate, k, t)
  {
    EntitledClosedForm(m, last, ps, i);
    EntitledClosedForm(m, last, ps, j);
    CreditAdds(m.rate, BackCount(last, ps, i), ForwardNs(last, ps, i), k, t);
  }

  lemma FirstStep(m: Meter, s: State, ps: seq<Packet>, i: nat)
    requires i < |ps|
    ensures Spent(m, s, ps, i + 1) - BytesAt(m, s, ps, i) <= 2 * m.rate
    ensures Spent(m, s, ps, i + 1) - BytesAt(m, s, ps, i) <= StateAt(m, s, ps, i).tokens + m.rate
  {
    StepBound(m, StateAt(m, s, ps, i), ps[i]);
    BytesStep(m, s, ps, i + 1);
  }

  /** Packets after packet `i` and before `j` that carried an older clock value, and how far the
      clock values moved forward over that stretch: its duration plus what was moved back. */
  function BackIn(last: Word64, ps: seq<Packet>, i: nat, j: nat): int
    requires i < j <= |ps|
  {
    BackCount(last, ps, j) - BackCount(last, ps, i + 1)
  }

  function ForwardIn(last: Word64, ps: seq<Packet>, i: nat, j: nat): int
    requires i < j <= |ps|
  {
    ps[j - 1].now - ps[i].now + BackNs(last, ps, j) - BackNs(last, ps, i + 1)
  }

  lemma ForwardInIs(last: Word64, ps: seq<Packet>, i: nat, j: nat)
    requires i < j <= |ps|
    ensures ForwardIn(last, ps, i, j) == ForwardNs(last, ps, j) - ForwardNs(last, ps, i + 1)
  {
    ForwardIsNetPlusBack(last, ps, i + 1);
    ForwardIsNetPlusBack(last, ps, j);
  }

  /** Over any stretch of packets i..j-1, whatever happened before and with clock values in any
      order: at most the depth, and at most one second's worth beyond what the bucket held, plus
      a second's worth for each older clock value, plus the rate times the time moved forward. */
  lemma Stretch(m: Meter, s: State, ps: seq<Packet>, i: nat, j: nat)
    requires i < j <= |ps|
    ensures var k, t := BackIn(s.last, ps, i, j), ForwardIn(s.last, ps, i, j);
            && NS * (BytesAt(m, s, ps, j) - BytesAt(m, s, ps, i)) <= Credit(m.rate, k + 2, t)
            && NS * (BytesAt(m, s, ps, j) - BytesAt(m, s, ps, i)) <= NS * StateAt(m, s, ps, i).tokens + Credit(m.rate, k + 1, t)
  {
    FirstStep(m, s, ps, i);
    ForwardInIs(s.last, ps, i, j);
    var k, t := BackIn(s.last, ps, i, j), ForwardIn(s.last, ps, i, j);
    RateBound(m, s, ps, i + 1, j, k, t);
    assert BytesAt(m, s, ps, j) <= Spent(m, s, ps, j);
    CreditAdds(m.rate, k, t, 1, 0);
    CreditAdds(m.rate, k, t, 2, 0);
  }

  /** Traffic envelope: over any stretch of packets i..j-1 in clock order, whatever happened
      before, at most the depth plus the rate times the stretch's duration gets through; and
      at most one second's worth beyond what the bucket held before the stretch. */
  lemma Envelope(m: Meter, s: State, ps: seq<Packet>, i: nat, j: nat)
    requires i < j <= |ps|
    requires forall k :: i < k < j ==> !Backward(s.last, ps, k)
    ensures var t := ps[j - 1].now - ps[i].now;
            && NS * (BytesAt(m, s, ps, j) - BytesAt(m, s, ps, i)) <= Credit(m.rate, 2, t)
            && NS * (BytesAt(m, s, ps, j) - BytesAt(m, s, ps, i)) <= NS * StateAt(m, s, ps, i).tokens + Credit(m.rate, 1, t)
  {
    Stretch(m, s, ps, i, j);
    InOrderClock(s.last, ps, i + 1, j);
  }

  /** A fresh limiter lets through one second's worth beyond the rate at most, however long the
      machine had been up before its first packet. */
  lemma FreshEnvelope(m: Meter, ps: seq<Packet>, n: nat)
    requires 0 < n <= |ps| && InOrder(0, ps)
    ensures NS * BytesAt(m, ZERO, ps, n) <= Credit(m.rate, 1, ps[n - 1].now - ps[0].now)
  {
    Envelope(m, ZERO, ps, 0, n);
  }

  /** The same with clock values in any order. */
  lemma FreshRateBound(m: Meter, ps: seq<Packet>, n: nat)
    requires 0 < n <= |ps|
    ensures NS * BytesAt(m, ZERO, ps, n)
         <= Credit(m.rate, BackCount(0, ps, n) + 1, ps[n - 1].now - ps[0].now + BackNs(0, ps, n))
  {
    Stretch(m, ZERO, ps, 0, n);
    assert BackCount(0, ps, 1) == 0 && BackNs(0, ps, 1) == 0;
  }

  // ---- conformance to the exact bucket --------------------------------------------------

  /** The textbook bucket in exact arithmetic (10^-9 byte units): the same rate and depth, no
      truncation and no cap on the elapsed time.  It is fed only the packets the filter let
      through. */
  datatype Ideal = Ideal(level: int, at: Word64)

  function IdealLevel(m: Meter, b: Ideal, now: Word64): int {
    Min(b.level + m.rate * (now - b.at), NS * (2 * m.rate))
  }

  function IdealStep(m: Meter, b: Ideal, p: Packet, admitted: bool): Ideal {
    if admitted then Ideal(IdealLevel(m, b, p.now) - NS * p.size, p.now) else b
  }

  function IdealAt(m: Meter, s: State, ps: seq<Packet>, n: nat): Ideal
    requires n <= |ps|
  {
    if n == 0 then Ideal(NS * s.tokens, s.last)
    else IdealStep(m, IdealAt(m, s, ps, n - 1), ps[n - 1], AdmitsAt(m, s, ps, n - 1))
  }

  /** The filter's bucket holds no more than the exact one does at the same moment. */
  ghost predicate Within(m: Meter, s: State, b: Ideal) {
    NS * s.tokens <= IdealLevel(m, b, s.last)
  }

  lemma StepConformance(m: Meter, s: State, b: Ideal, p: Packet)
    requires s.last <= p.now && Within(m, s, b)
    ensures Admits(m, s, p) ==> NS * p.size <= IdealLevel(m, b, p.now)
    ensures Within(m, Step(m, s, p), IdealStep(m, b, p, Admits(m, s, p)))
  {
    assert RefillsWithin(m, p.now - s.last);
    assert m.rate * (p.now - b.at) == m.rate * (p.now - s.last) + m.rate * (s.last - b.at);
    assert NS * Level(m, s, p.now) <= IdealLevel(m, b, p.now);
    assert m.rate * (p.now - p.now) == 0;
  }

  /** In a run in clock order the filter's bucket never holds more than the exact bucket, so
      every packet it lets through conforms to the exact bucket as well. */
  lemma {:induction false} Conformance(m: Meter, s: State, ps: seq<Packet>, n: nat)
    requires n <= |ps| && s.tokens <= 2 * m.rate && InOrder(s.last, ps)
    ensures Within(m, StateAt(m, s, ps, n), IdealAt(m, s, ps, n))
    ensures n < |ps| && AdmitsAt(m, s, ps, n) ==>
              NS * ps[n].size <= IdealLevel(m, IdealAt(m, s, ps, n), ps[n].now)
  {
    if n == 0 {
      assert m.rate * (s.last - s.last) == 0;
    } else {
      Conformance(m, s, ps, n - 1);
      LastIsState(m, s, ps, n - 1);
      assert !Backward(s.last, ps, n - 1);
      StepConformance(m, StateAt(m, s, ps, n - 1), IdealAt(m, s, ps, n - 1), ps[n - 1]);
    }
    if n < |ps| {
      LastIsState(m, s, ps, n);
      assert !Backward(s.last, ps, n);
      StepConformance(m, StateAt(m, s, ps, n), IdealAt(m, s, ps, n), ps[n]);
    }
  }

  // ---- dominance -----------------------------------------------------------------------

  /** Two buckets fed the same packets, and how many each has admitted. */
  datatype Race = Race(low: State, high: State, lowCount: nat, highCount: nat)

  function One(admitted: bool): nat { if admitted then 1 else 0 }

  function RaceStep(low: Meter, high: Meter, r: Race, p: Packet): Race {
    Race(Step(low, r.low, p), Step(high, r.high, p),
         r.lowCount + One(Admits(low, r.low, p)), r.highCount + One(Admits(high, r.high, p)))
  }

  function RaceAt(low: Meter, high: Meter, ps: seq<Packet>, n: nat): Race
    requires n <= |ps|
  {
    if n == 0 then Race(ZERO, ZERO, 0, 0) else RaceStep(low, high, RaceAt(low, high, ps, n - 1), ps[n - 1])
  }

  /** The joint invariant. */
  ghost predicate Ahead(low: Meter, high: Meter, size: nat, r: Race) {
    && r.low.last == r.high.last && r.low.tokens <= 2 * low.rate && r.high.tokens <= 2 * high.rate
    && r.lowCount <= r.highCount
    && r.low.tokens + size * r.lowCount <= r.high.tokens + size * r.highCount
  }

  lemma StepDominance(low: Meter, high: Meter, r: Race, p: Packet)
    requires Slower(low, high) && Ahead(low, high, p.size, r)
    ensures Ahead(low, high, p.size, RaceStep(low, high, r, p))
  {
    var a, b := r.lowCount, r.highCount;
    assert low.refill(ElapsedNs(p.now, r.low.last)) <= high.refill(ElapsedNs(p.now, r.high.last));
    MulMono(p.size, a, b);
    assert p.size * (a + 1) == p.size * a + p.size;
    assert p.size * (b + 1) == p.size * b + p.size;
    assert Level(low, r.low, p.now) + p.size * a <= Level(high, r.high, p.now) + p.size * b;
    if a < b {
      MulMono(p.size, a + 1, b);
    }
  }

  lemma {:induction false} RunsAhead(low: Meter, high: Meter, ps: seq<Packet>, size: Word32, n: nat)
    requires Slower(low, high) && n <= |ps|
    requires forall i :: 0 <= i < |ps| ==> ps[i].size == size
    ensures Ahead(low, high, size, RaceAt(low, high, ps, n))
  {
    if n > 0 {
      RunsAhead(low, high, ps, size, n - 1);
      StepDominance(low, high, RaceAt(low, high, ps, n - 1), ps[n - 1]);
    }
  }

  lemma {:induction false} RaceIsTwoRuns(low: Meter, high: Meter, ps: seq<Packet>, n: nat)
    requires n <= |ps|
    ensures RaceAt(low, high, ps, n)
         == Race(StateAt(low, ZERO, ps, n), StateAt(high, ZERO, ps, n), CountAt(low, ZERO, ps, n), CountAt(high, ZERO, ps, n))
  {
    if n > 0 {
      RaceIsTwoRuns(low, high, ps, n - 1);
    }
  }

  /** With packets of one size, in any order of clock values, a higher limit has let through
      at least as many packets after every prefix. */
  lemma Dominance(low: Word32, high: Word32, ps: seq<Packet>, size: Word32, n: nat)
    requires low <= high && n <= |ps|
    requires forall i :: 0 <= i < |ps| ==> ps[i].size == size
    ensures CountAt(MeterOf(low), ZERO, ps, n) <= CountAt(MeterOf(high), ZERO, ps, n)
  {
    LowerLimitIsSlower(low, high);
    RunsAhead(MeterOf(low), MeterOf(high), ps, size, n);
    RaceIsTwoRuns(MeterOf(low), MeterOf(high), ps, n);
  }

  /** Equal sizes are needed: at 2 kbit/s a 250-byte packet uses up the bucket that 1 kbit/s
      leaves for two small ones. */
  lemma DominanceNeedsEqualSizes()
    ensures var ps := [Packet(NS, 250), Packet(NS, 1), Packet(NS, 1)];
            CountAt(MeterOf(2), ZERO, ps, 3) < CountAt(MeterOf(1), ZERO, ps, 3)
  {
    var ps := [Packet(NS, 250), Packet(NS, 1), Packet(NS, 1)];
    var low: Meter, high: Meter := MeterOf(1), MeterOf(2);
    assert low.refill(0) == 0 && high.refill(0) == 0 && low.refill(NS) == 125 && high.refill(NS) == 250;
    Visit(low, ps, 0, ZERO, 125);
    Visit(low, ps, 1, State(125, NS), 125);
    Visit(low, ps, 2, State(124, NS), 124);
    Visit(high, ps, 0, ZERO, 250);
    Visit(high, ps, 1, State(0, NS), 0);
    Visit(high, ps, 2, State(0, NS), 0);
  }

  /** One packet of a run with known numbers. */
  lemma Visit(m: Meter, ps: seq<Packet>, n: nat, before: State, level: nat)
    requires n < |ps| && StateAt(m, ZERO, ps, n) == before && Level(m, before, ps[n].now) == level
    ensures var ok := ps[n].size <= level;
            && StateAt(m, ZERO, ps, n + 1) == State(if ok then level - ps[n].size else level, ps[n].now)
            && CountAt(m, ZERO, ps, n + 1) == CountAt(m, ZERO, ps, n) + One(ok)
  {}

  // ---- conservation --------------------------------------------------------------------

  function Gap(last: Word64, ps: seq<Packet>, i: nat): Word64
    requires i < |ps|
  {
    ElapsedNs(ps[i].now, LastAt(last, ps, i))
  }

  function RefilledAt(m: Meter, last: Word64, ps: seq<Packet>, n: nat): nat
    requires n <= |ps|
  {
    if n == 0 then 0 else RefilledAt(m, last, ps, n - 1) + m.refill(Gap(last, ps, n - 1))
  }

  /** What the depth cap throws away. */
  function Discard(m: Meter, s: State, p: Packet): nat {
    var full := s.tokens + m.refill(ElapsedNs(p.now, s.last));
    if full > 2 * m.rate then full - 2 * m.rate else 0
  }

  function DiscardedAt(m: Meter, s: State, ps: seq<Packet>, n: nat): nat
    requires n <= |ps|
  {
    if n == 0 then 0 else DiscardedAt(m, s, ps, n - 1) + Discard(m, StateAt(m, s, ps, n - 1), ps[n - 1])
  }

  function CappedTimeAt(last: Word64, ps: seq<Packet>, n: nat): nat
    requires n <= |ps|
  {
    if n == 0 then 0 else CappedTimeAt(last, ps, n - 1) + Min(Gap(last, ps, n - 1), NS)
  }

  /** No byte of credit is lost or made up: what is held, let through and discarded adds up to
      what was there and what was refilled, whatever the order of clock values. */
  lemma {:induction false} Conservation(m: Meter, s: State, ps: seq<Packet>, n: nat)
    requires n <= |ps|
    ensures Spent(m, s, ps, n) + DiscardedAt(m, s, ps, n) == s.tokens + RefilledAt(m, s.last, ps, n)
  {
    if n > 0 {
      Conservation(m, s, ps, n - 1);
      LastIsState(m, s, ps, n - 1);
      BytesStep(m, s, ps, n);
    }
  }

  lemma SumBounds(rate: int, t: int, u: int, x: int, y: int, k: int, n: int)
    requires rate * t <= x + n * k && rate * u <= y + k
    ensures rate * (t + u) <= x + y + (n + 1) * k
  {
    assert rate * (t + u) == rate * t + rate * u;
    assert (n + 1) * k == n * k + k;
  }

  /** The refill is short of the exact amount, time capped at 1 s a gap, by at most one byte
      and one microsecond's worth per packet. */
  lemma {:induction false} TruncationBounded(m: Meter, last: Word64, ps: seq<Packet>, n: nat)
    requires n <= |ps|
    ensures m.rate * CappedTimeAt(last, ps, n) <= NS * RefilledAt(m, last, ps, n) + n * (NS + 1000 * m.rate)
  {
    if n > 0 {
      TruncationBounded(m, last, ps, n - 1);
      var gap := Gap(last, ps, n - 1);
      assert RefillsWithin(m, gap);
      SumBounds(m.rate, CappedTimeAt(last, ps, n - 1), Min(gap, NS),
                NS * RefilledAt(m, last, ps, n - 1), NS * m.refill(gap), NS + 1000 * m.rate, n - 1);
    }
  }

  /** So a run gets the promised rate, less the depth, the rounding and what the cap discarded:
      the lower side of the envelope. */
  lemma Throughput(m: Meter, s: State, ps: seq<Packet>, n: nat)
    requires n <= |ps| && s.tokens <= 2 * m.rate
    ensures m.rate * CappedTimeAt(s.last, ps, n) - n * (NS + 1000 * m.rate) - NS * (2 * m.rate) + NS * s.tokens
         <= NS * (BytesAt(m, s, ps, n) + DiscardedAt(m, s, ps, n))
  {
    Conservation(m, s, ps, n);
    TruncationBounded(m, s.last, ps, n);
    NeverAboveDepth(m, s, ps, n);
  }

  // ---- in the limit's own unit ---------------------------------------------------------

  lemma InBits(rate: nat, bits: int, seconds: int, ns: int)
    requires bits == 8 * rate
    ensures 8 * Credit(rate, seconds, ns) == bits * (NS * seconds + ns)
  {
    assert bits * (NS * seconds + ns) == 8 * (NS * (rate * seconds)) + 8 * (rate * ns);
  }

  /** A limit is in units of 1000 bits per second: over any in-order stretch the bits let through are
      at most the limit times two seconds and the stretch's duration. */
  lemma EnvelopeInBits(kbps: Word32, bits: nat, s: State, ps: seq<Packet>, i: nat, j: nat)
    requires bits == 1000 * kbps && i < j <= |ps|
    requires forall k :: i < k < j ==> !Backward(s.last, ps, k)
    ensures NS * (8 * (BytesAt(MeterOf(kbps), s, ps, j) - BytesAt(MeterOf(kbps), s, ps, i)))
         <= bits * (NS * 2 + (ps[j - 1].now - ps[i].now))
  {
    Envelope(MeterOf(kbps), s, ps, i, j);
    InBits(MeterOf(kbps).rate, bits, 2, ps[j - 1].now - ps[i].now);
  }

  lemma ShareInBits(rate: int, bits: int, time: int, n: int, bytes: int)
    requires bits == 8 * rate && rate * time - n * (NS + 1000 * rate) - NS * (2 * rate) <= NS * bytes
    ensures bits * (time - 2 * NS) - n * (8 * NS + 1000 * bits) <= NS * (8 * bytes)
  {
    assert bits * (time - 2 * NS) == 8 * (rate * time) - 8 * (NS * (2 * rate));
    assert n * (8 * NS + 1000 * bits) == 8 * (n * (NS + 1000 * rate));
  }

  lemma ThroughputAt(m: Meter, bits: int, s: State, ps: seq<Packet>, n: nat)
    requires n <= |ps| && s.tokens <= 2 * m.rate && bits == 8 * m.rate
    ensures bits * (CappedTimeAt(s.last, ps, n) - 2 * NS) - n * (8 * NS + 1000 * bits)
         <= NS * (8 * (BytesAt(m, s, ps, n) + DiscardedAt(m, s, ps, n)))
  {
    Throughput(m, s, ps, n);
    ShareInBits(m.rate, bits, CappedTimeAt(s.last, ps, n), n, BytesAt(m, s, ps, n) + DiscardedAt(m, s, ps, n));
  }

  /** And with what the cap discarded they are at least that times the capped time, less two seconds'
      worth and the rounding. */
  lemma ThroughputInBits(kbps: Word32, bits: nat, s: State, ps: seq<Packet>, n: nat)
    requires bits == 1000 * kbps && n <= |ps| && s.tokens <= 2 * MeterOf(kbps).rate
    ensures bits * (CappedTimeAt(s.last, ps, n) - 2 * NS) - n * (8 * NS + 1000 * bits)
         <= NS * (8 * (BytesAt(MeterOf(kbps), s, ps, n) + DiscardedAt(MeterOf(kbps), s, ps, n)))
  {
    ThroughputAt(MeterOf(kbps), bits, s, ps, n);
  }

  // ---- progress and its absence --------------------------------------------------------

  /** Packets at least a second apart: none that fits one second's worth is dropped, and of two
      in a row that fit the depth at least one passes, because a drop still banks its refill. */
  lemma Progress(m: Meter, s: State, ps: seq<Packet>, n: nat)
    requires n < |ps| && Gap(s.last, ps, n) >= NS
    ensures ps[n].size <= m.rate ==> AdmitsAt(m, s, ps, n)
    ensures n > 0 && Gap(s.last, ps, n - 1) >= NS && ps[n].size <= 2 * m.rate ==>
              AdmitsAt(m, s, ps, n - 1) || AdmitsAt(m, s, ps, n)
  {
    LastIsState(m, s, ps, n);
    if n > 0 {
      LastIsState(m, s, ps, n - 1);
    }
  }

  /** A size never passes a limiter, in any run whatever, exactly when it exceeds the depth:
      1500-byte packets never pass a limit of 5 kbit/s or less. */
  lemma NeverPassesIff(m: Meter, size: Word32)
    ensures size > 2 * m.rate <==>
              forall ps: seq<Packet>, n :: 0 <= n < |ps| && ps[n].size == size ==> !AdmitsAt(m, ZERO, ps, n)
  {
    if size <= 2 * m.rate {
      var ps := [Packet(NS, 0), Packet(2 * NS, size)];
      assert StateAt(m, ZERO, ps, 1) == State(m.rate, NS);
      assert AdmitsAt(m, ZERO, ps, 1) && ps[1].size == size;
    }
  }

  /** A gap refills nothing exactly when the rate times its whole microseconds is below 10^6. */
  lemma NoRefillIff(kbps: Word32, gap: nat)
    ensures MeterOf(kbps).refill(gap) == 0 <==> LimitBps(kbps) * Min(gap / 1000, 1_000_000) < 1_000_000
  {}

  /** Truncation is not carried over: a stretch of packets whose gaps each refill nothing gets
      through only what the bucket held at its start, however long it lasts. */
  lemma {:induction false} Starvation(m: Meter, s: State, ps: seq<Packet>, i: nat, j: nat)
    requires i <= j <= |ps|
    requires forall k :: i <= k < j ==> m.refill(Gap(s.last, ps, k)) == 0
    ensures Spent(m, s, ps, j) <= Spent(m, s, ps, i)
    decreases j - i
  {
    if i < j {
      Starvation(m, s, ps, i, j - 1);
      LastIsState(m, s, ps, j - 1);
      BytesStep(m, s, ps, j);
      assert m.refill(Gap(s.last, ps, j - 1)) == 0;
    }
  }

  /** For instance 1 kbit/s, which promises 125 bytes/s, and packets 7 ms apart: whenever the first
      of them comes, no more than one second's worth gets through in all, for any number of
      packets. */
  lemma StarvationExample(ps: seq<Packet>, n: nat)
    requires n <= |ps|
    requires forall k :: 1 <= k < |ps| ==> Gap(0, ps, k) == 7_000_000
    ensures BytesAt(MeterOf(1), ZERO, ps, n) <= 125
  {
    if n > 0 {
      var m: Meter := MeterOf(1);
      NoRefillIff(1, 7_000_000);
      Starvation(m, ZERO, ps, 1, n);
      FirstStep(m, ZERO, ps, 0);
    }
  }

  // ---- steady streams ------------------------------------------------------------------

  /** Packets of one size, each `gap` nanoseconds after the one before. */
  ghost predicate Steady(last: Word64, ps: seq<Packet>, gap: Word64, size: Word32) {
    forall k :: 0 <= k < |ps| ==> SteadyAt(last, ps, gap, size, k)
  }

  ghost predicate SteadyAt(last: Word64, ps: seq<Packet>, gap: Word64, size: Word32, k: nat)
    requires k < |ps|
  {
    Gap(last, ps, k) == gap && ps[k].size == size
  }

  /** A refused packet that would fit the depth leaves its whole refill in the bucket. */
  lemma RefusalBanks(m: Meter, s: State, p: Packet)
    requires p.size <= 2 * m.rate && !Admits(m, s, p)
    ensures Step(m, s, p).tokens == s.tokens + m.refill(ElapsedNs(p.now, s.last)) < p.size
  {}

  /** Packet `k`, of at most `size`, is refused although its gap brought `r` bytes or more. */
  ghost predicate RefusedAt(m: Meter, s: State, ps: seq<Packet>, k: nat, r: nat, size: nat)
    requires k < |ps|
  {
    m.refill(Gap(s.last, ps, k)) >= r && ps[k].size <= size && !AdmitsAt(m, s, ps, k)
  }

  lemma RefusalStep(m: Meter, s: State, ps: seq<Packet>, k: nat, r: nat, size: nat)
    requires k < |ps| && size <= 2 * m.rate && RefusedAt(m, s, ps, k, r, size)
    ensures StateAt(m, s, ps, k).tokens + r <= StateAt(m, s, ps, k + 1).tokens < size
  {
    LastIsState(m, s, ps, k);
    RefusalBanks(m, StateAt(m, s, ps, k), ps[k]);
  }

  /** Nobody is refused for long whose gaps refill something: with each refusal the bucket fills
      up by `r` at least, so fewer than size / r refusals follow one another. */
  lemma {:induction false} WaitIsBounded(m: Meter, s: State, ps: seq<Packet>, i: nat, j: nat, r: nat, size: nat)
    requires i < j <= |ps| && size <= 2 * m.rate
    requires forall k :: i <= k < j ==> RefusedAt(m, s, ps, k, r, size)
    ensures StateAt(m, s, ps, i).tokens + (j - i) * r <= StateAt(m, s, ps, j).tokens < size
    decreases j - i
  {
    RefusalStep(m, s, ps, j - 1, r, size);
    if i < j - 1 {
      WaitIsBounded(m, s, ps, i, j - 1, r, size);
    }
    assert (j - i) * r == (j - 1 - i) * r + r;
  }

  /** One packet of a steady stream. */
  lemma SteadyOne(m: Meter, s: State, ps: seq<Packet>, gap: Word64, size: Word32, n: nat)
    requires Steady(s.last, ps, gap, size) && n < |ps|
    ensures var before := StateAt(m, s, ps, n);
            && ElapsedNs(ps[n].now, before.last) == gap && ps[n].size == size
            && StateAt(m, s, ps, n + 1) == Step(m, before, ps[n])
            && CountAt(m, s, ps, n + 1) == CountAt(m, s, ps, n) + One(Admits(m, before, ps[n]))
  {
    LastIsState(m, s, ps, n);
    assert SteadyAt(s.last, ps, gap, size, n);
  }

  /** `n` times `x`, a step at a time. */
  function Times(n: nat, x: nat): nat { if n == 0 then 0 else Times(n - 1, x) + x }

  lemma {:induction false} TimesIsProduct(n: nat, x: nat)
    ensures Times(n, x) == n * x
  {
    if n > 0 {
      TimesIsProduct(n - 1, x);
      assert n * x == (n - 1) * x + x;
    }
  }

  /** `n` packets of a steady stream have used or left every byte there was and was refilled. */
  ghost predicate FullyUsed(size: nat, start: nat, r: nat, n: nat, count: nat, tokens: nat) {
    tokens < size && Times(count, size) + tokens == start + Times(n, r)
  }

  lemma FullyUsedOne(m: Meter, s: State, p: Packet, start: nat, n: nat, count: nat)
    requires 0 < p.size <= m.rate && m.refill(ElapsedNs(p.now, s.last)) <= p.size
    requires FullyUsed(p.size, start, m.refill(ElapsedNs(p.now, s.last)), n, count, s.tokens)
    ensures FullyUsed(p.size, start, m.refill(ElapsedNs(p.now, s.last)), n + 1,
                      count + One(Admits(m, s, p)), Step(m, s, p).tokens)
  {}

  lemma {:induction false} SteadyService(m: Meter, s: State, ps: seq<Packet>, gap: Word64, size: Word32, n: nat, r: nat)
    requires Steady(s.last, ps, gap, size) && n <= |ps|
    requires 0 < size <= m.rate && s.tokens < size && m.refill(gap) == r <= size
    ensures FullyUsed(size, s.tokens, r, n, CountAt(m, s, ps, n), StateAt(m, s, ps, n).tokens)
  {
    if n > 0 {
      SteadyService(m, s, ps, gap, size, n - 1, r);
      SteadyServiceOne(m, s, ps, gap, size, n - 1, r);
    }
  }

  lemma SteadyServiceOne(m: Meter, s: State, ps: seq<Packet>, gap: Word64, size: Word32, n: nat, r: nat)
    requires Steady(s.last, ps, gap, size) && n < |ps| && 0 < size <= m.rate && m.refill(gap) == r <= size
    requires FullyUsed(size, s.tokens, r, n, CountAt(m, s, ps, n), StateAt(m, s, ps, n).tokens)
    ensures FullyUsed(size, s.tokens, r, n + 1, CountAt(m, s, ps, n + 1), StateAt(m, s, ps, n + 1).tokens)
  {
    SteadyOne(m, s, ps, gap, size, n);
    FullyUsedOne(m, StateAt(m, s, ps, n), ps[n], s.tokens, n, CountAt(m, s, ps, n));
  }

  lemma Quotient(size: nat, start: nat, r: nat, n: nat, count: nat, tokens: nat)
    requires FullyUsed(size, start, r, n, count, tokens)
    ensures count == (start + n * r) / size
  {
    TimesIsProduct(count, size);
    TimesIsProduct(n, r);
    DivisionIs(start + n * r, size, count, tokens);
  }

  lemma DivisionIs(total: nat, size: nat, count: nat, tokens: nat)
    requires tokens < size && count * size + tokens == total
    ensures count == total / size
  {
    var q := total / size;
    assert size * (count + 1) == size * count + size && size * (q + 1) == size * q + size;
    if count < q {
      MulMono(size, count + 1, q);
    } else if q < count {
      MulMono(size, q + 1, count);
    }
  }

  /** The exact service of a steady stream of packets of at most one second's worth whose gap
      refills `r` bytes, less than a packet, once the bucket holds less than one packet: of `n`
      packets (held + n * r) / size pass. */
  lemma SteadyCount(m: Meter, s: State, ps: seq<Packet>, gap: Word64, size: Word32, n: nat, r: nat)
    requires Steady(s.last, ps, gap, size) && n <= |ps|
    requires 0 < size <= m.rate && s.tokens < size && m.refill(gap) == r < size
    ensures CountAt(m, s, ps, n) == (s.tokens + n * r) / size
  {
    SteadyService(m, s, ps, gap, size, n, r);
    Quotient(size, s.tokens, r, n, CountAt(m, s, ps, n), StateAt(m, s, ps, n).tokens);
  }

  /** Where each gap refills a whole packet, all of them pass. */
  lemma {:induction false} AllPass(m: Meter, s: State, ps: seq<Packet>, gap: Word64, size: Word32, n: nat)
    requires Steady(s.last, ps, gap, size) && n <= |ps| && size <= 2 * m.rate && m.refill(gap) >= size
    ensures CountAt(m, s, ps, n) == n
  {
    if n > 0 {
      AllPass(m, s, ps, gap, size, n - 1);
      SteadyOne(m, s, ps, gap, size, n - 1);
    }
  }

  /** A steady stream of any length; the clock may wrap. */
  function SteadyStream(last: Word64, gap: Word64, size: Word32, n: nat): (ps: seq<Packet>)
    ensures |ps| == n && Steady(last, ps, gap, size)
  {
    if n == 0 then []
    else
      var ps := SteadyStream(last, gap, size, n - 1);
      var next := ps + [Packet(Add64(LastAt(last, ps, n - 1), gap), size)];
      assert forall k :: 0 <= k < n - 1 ==> SteadyAt(last, ps, gap, size, k) && Gap(last, next, k) == Gap(last, ps, k);
      next
  }

  lemma {:induction false} NoneCounted(m: Meter, s: State, ps: seq<Packet>, n: nat)
    requires n <= |ps|
    ensures CountAt(m, s, ps, n) == 0 <==> forall k :: 0 <= k < n ==> !AdmitsAt(m, s, ps, k)
  {
    if n > 0 {
      NoneCounted(m, s, ps, n - 1);
    }
  }

  lemma {:induction false} NoRefillNoService(m: Meter, s: State, ps: seq<Packet>, gap: Word64, size: Word32, n: nat)
    requires Steady(s.last, ps, gap, size) && n <= |ps| && s.tokens < size && m.refill(gap) == 0
    ensures CountAt(m, s, ps, n) == 0 && StateAt(m, s, ps, n).tokens < size
  {
    if n > 0 {
      NoRefillNoService(m, s, ps, gap, size, n - 1);
      SteadyOne(m, s, ps, gap, size, n - 1);
    }
  }

  /** Exactly when a steady stream is refused for ever, once the bucket holds less than a packet:
      when its gap refills nothing.  Otherwise one of any `size` packets in a row passes. */
  lemma RefusedForEverIff(m: Meter, s: State, gap: Word64, size: Word32)
    requires 0 < size <= 2 * m.rate && s.tokens < size
    ensures m.refill(gap) == 0 <==>
              forall ps :: Steady(s.last, ps, gap, size) ==> CountAt(m, s, ps, |ps|) == 0
  {
    if m.refill(gap) == 0 {
      forall ps | Steady(s.last, ps, gap, size) ensures CountAt(m, s, ps, |ps|) == 0 {
        NoRefillNoService(m, s, ps, gap, size, |ps|);
      }
    } else {
      var ps := SteadyStream(s.last, gap, size, size);
      if CountAt(m, s, ps, |ps|) == 0 {
        NoneCounted(m, s, ps, |ps|);
        assert forall k :: 0 <= k < |ps| ==> SteadyAt(s.last, ps, gap, size, k) && RefusedAt(m, s, ps, k, 1, size);
        WaitIsBounded(m, s, ps, 0, size, 1, size);
      }
    }
  }

  // ---- direction independence ----------------------------------------------------------

  datatype Event = Event(dir: Direction, packet: Packet)

  datatype Pair = Pair(upload: State, download: State) {
    function Of(d: Direction): State { if d == Upload then upload else download }
  }

  function StepPair(up: Meter, down: Meter, b: Pair, e: Event): Pair {
    if e.dir == Upload then Pair(Step(up, b.upload, e.packet), b.download) else Pair(b.upload, Step(down, b.download, e.packet))
  }

  /** Both directions of one filter, fed an interleaving of egress and ingress packets. */
  function PairAt(up: Meter, down: Meter, es: seq<Event>, n: nat): Pair
    requires n <= |es|
  {
    if n == 0 then Pair(ZERO, ZERO) else StepPair(up, down, PairAt(up, down, es, n - 1), es[n - 1])
  }

  function Only(d: Direction, es: seq<Event>, n: nat): seq<Packet>
    requires n <= |es|
  {
    if n == 0 then []
    else Only(d, es, n - 1) + (if es[n - 1].dir == d then [es[n - 1].packet] else [])
  }

  function RunAlone(m: Meter, ps: seq<Packet>): State { StateAt(m, ZERO, ps, |ps|) }

  lemma {:induction false} PrefixState(m: Meter, ps: seq<Packet>, more: seq<Packet>, n: nat)
    requires n <= |ps|
    ensures StateAt(m, ZERO, ps + more, n) == StateAt(m, ZERO, ps, n)
  {
    if n > 0 {
      PrefixState(m, ps, more, n - 1);
    }
  }

  lemma OneMore(m: Meter, ps: seq<Packet>, p: Packet)
    ensures RunAlone(m, ps + [p]) == Step(m, RunAlone(m, ps), p)
  {
    PrefixState(m, ps, [p], |ps|);
    assert (ps + [p])[|ps|] == p;
  }

  ghost function MeterFor(up: Meter, down: Meter, d: Direction): Meter { if d == Upload then up else down }

  /** Each direction's bucket is what that direction's own packets run alone would give. */
  lemma {:induction false} DirectionsIndependent(up: Meter, down: Meter, es: seq<Event>, n: nat, d: Direction)
    requires n <= |es|
    ensures PairAt(up, down, es, n).Of(d) == RunAlone(MeterFor(up, down, d), Only(d, es, n))
  {
    if n > 0 {
      DirectionsIndependent(up, down, es, n - 1, d);
      if es[n - 1].dir == d {
        OneMore(MeterFor(up, down, d), Only(d, es, n - 1), es[n - 1].packet);
      } else {
        assert Only(d, es, n) == Only(d, es, n - 1);
      }
    }
  }

  /** The verdict on packet `n` when only the packets of its own direction ever came. */
  ghost predicate AdmittedAlone(up: Meter, down: Meter, es: seq<Event>, n: nat)
    requires n < |es|
  {
    var d := es[n].dir;
    AdmitsAt(MeterFor(up, down, d), ZERO, Only(d, es, n + 1), |Only(d, es, n)|)
  }

  /** And so is each of its verdicts. */
  lemma VerdictAlone(up: Meter, down: Meter, es: seq<Event>, n: nat)
    requires n < |es|
    ensures var d := es[n].dir;
            Admits(MeterFor(up, down, d), PairAt(up, down, es, n).Of(d), es[n].packet) <==> AdmittedAlone(up, down, es, n)
  {
    var d := es[n].dir;
    DirectionsIndependent(up, down, es, n, d);
    PrefixState(MeterFor(up, down, d), Only(d, es, n), [es[n].packet], |Only(d, es, n)|);
  }

  /** Buckets and verdicts after the first `n` packets of an interleaving. */
  ghost predicate FedTo(up: Meter, down: Meter, es: seq<Event>, n: nat, buckets: Pair, verdicts: seq<bool>)
    requires n <= |es|
  {
    && buckets == PairAt(up, down, es, n) && |verdicts| == n
    && forall i :: 0 <= i < n ==> (verdicts[i] <==> AdmittedAlone(up, down, es, i))
  }

  lemma FedOneMore(up: Meter, down: Meter, es: seq<Event>, n: nat, b: Pair, verdicts: seq<bool>, allow: bool)
    requires n < |es| && FedTo(up, down, es, n, b, verdicts)
    requires allow <==> Admits(MeterFor(up, down, es[n].dir), b.Of(es[n].dir), es[n].packet)
    ensures FedTo(up, down, es, n + 1, StepPair(up, down, b, es[n]), verdicts + [allow])
  {
    VerdictAlone(up, down, es, n);
  }

  ghost function Buckets(f: Filter): Pair
    reads f, f.upload, f.download
  {
    Pair(f.upload.Bucket(), f.download.Bucket())
  }

  /** The program of the packet's direction runs. */
  method FeedOne(f: Filter, e: Event, ghost up: Meter, ghost down: Meter) returns (allow: bool)
    requires up == MeterOf(f.uploadKbps) && down == MeterOf(f.downloadKbps) && f.Valid()
    modifies f.upload, f.download
    ensures f.Valid() && Buckets(f) == StepPair(up, down, old(Buckets(f)), e)
    ensures allow <==> Admits(MeterFor(up, down, e.dir), old(Buckets(f)).Of(e.dir), e.packet)
  {
    if e.dir == Upload {
      allow := f.Egress(e.packet.now, e.packet.size);
    } else {
      allow := f.Ingress(e.packet.now, e.packet.size);
    }
  }

  /** One loaded filter over an interleaving of egress and ingress packets: each verdict is the
      one the packet would get with its own direction's packets alone. */
  method Feed(f: Filter, es: seq<Event>) returns (verdicts: seq<bool>)
    requires f.Valid() && f.upload.Bucket() == f.download.Bucket() == ZERO
    modifies f.upload, f.download
    ensures f.Valid() && |verdicts| == |es|
    ensures forall i :: 0 <= i < |es| ==>
              (verdicts[i] <==> AdmittedAlone(MeterOf(f.uploadKbps), MeterOf(f.downloadKbps), es, i))
    ensures f.upload.Bucket() == RunAlone(MeterOf(f.uploadKbps), Only(Upload, es, |es|))
    ensures f.download.Bucket() == RunAlone(MeterOf(f.downloadKbps), Only(Download, es, |es|))
  {
    ghost var up: Meter, down: Meter := MeterOf(f.uploadKbps), MeterOf(f.downloadKbps);
    verdicts := [];
    for i := 0 to |es|
      invariant f.Valid() && FedTo(up, down, es, i, Buckets(f), verdicts)
    {
      ghost var b := Buckets(f);
      var allow := FeedOne(f, es[i], up, down);
      FedOneMore(up, down, es, i, b, verdicts, allow);
      verdicts := verdicts + [allow];
    }
    DirectionsIndependent(up, down, es, |es|, Upload);
    DirectionsIndependent(up, down, es, |es|, Download);
  }
}
