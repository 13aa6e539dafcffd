/**
 The token bucket of the limiter.  Token levels are reals; time is in whole nanoseconds, because a
 wait is a Go duration: its fraction is cut off, so a deficit worth less than a nanosecond counts as
 no wait at all.
 */
module RateLimit {

  const NS: real := 1000000000.0

  // ---------- one bucket ----------

  /** `rate` in tokens per second, 0 for unlimited; `last` in nanoseconds. */
  datatype Bucket = Bucket(rate: int, burstSec: real, capacity: real, tokens: real, last: int)

  function CapacityOf(rate: int, burstSec: real): (c: real)
    ensures c >= 0.0
  {
    if rate > 0 && burstSec > 0.0 then rate as real * burstSec else 0.0
  }

  ghost predicate Valid(b: Bucket) {
    && b.capacity == CapacityOf(b.rate, b.burstSec)
    && b.tokens >= 0.0
    && (b.capacity > 0.0 ==> b.tokens <= b.capacity)
  }

  /** Tokens that accrue in `dt` nanoseconds, a nanosecond's worth at a time. */
  function Credit(rate: int, dt: int): real {
    if dt <= 0 then 0.0 else Credit(rate, dt - 1) + rate as real / NS
  }

  function Refilled(b: Bucket, now: int): real {
    var t := b.tokens + Credit(b.rate, now - b.last);
    if b.capacity > 0.0 && t > b.capacity then b.capacity else t
  }

  /** The duration `deficit / rate`, cut to nanoseconds. */
  function WaitNs(deficit: real, rate: int): int
    requires rate > 0
  {
    (deficit * NS / rate as real).Floor
  }

  /** `take`: the bucket afterwards and the wait; a wait of 0 is a grant. */
  function Taken(b: Bucket, n: nat, now: int): (Bucket, int) {
    if b.rate <= 0 then (b, 0)
    else
      var level := Refilled(b, now);
      if level >= n as real then (b.(tokens := level - n as real, last := now), 0)
      else (b.(tokens := 0.0, last := now), WaitNs(n as real - level, b.rate))
  }

  function Configured(b: Bucket, rate: int, burstSec: real): Bucket {
    var capacity := CapacityOf(rate, burstSec);
    b.(rate := rate, burstSec := burstSec, capacity := capacity,
       tokens := if b.tokens > capacity then capacity else b.tokens)
  }

  /** The limiter's bucket object. */
  class BucketObject {
    var rate: int
    var capacity: real
    var tokens: real
    var last: int
    var burstSec: real

    function View(): Bucket
      reads this
    {
      Bucket(rate, burstSec, capacity, tokens, last)
    }

    constructor (rate: int, burstSec: real, now: int)
      ensures Valid(View()) && View() == Bucket(rate, burstSec, capacity, capacity, now)
      ensures capacity == if rate > 0 && burstSec > 0.0 then rate as real * burstSec else 0.0
    {
      var cap := 0.0;
      if rate > 0 && burstSec > 0.0 {
        cap := rate as real * burstSec;
      }
      this.rate, this.burstSec, capacity, tokens, last := rate, burstSec, cap, cap, now;
    }

    method Configure(rate: int, burstSec: real)
      modifies this
      ensures View() == Configured(old(View()), rate, burstSec)
      ensures this.rate == rate && this.burstSec == burstSec && last == old(last)
      ensures capacity == if rate > 0 && burstSec > 0.0 then rate as real * burstSec else 0.0
      ensures tokens == if old(tokens) > capacity then capacity else old(tokens)
    {
      this.rate := rate;
      this.burstSec := burstSec;
      if rate > 0 && burstSec > 0.0 {
        capacity := rate as real * burstSec;
      } else {
        capacity := 0.0;
      }
      if tokens > capacity {
        tokens := capacity;
      }
    }

    /** The clock is monotonic.  A covered take leaves what there was and what the time has earned, up to a
        positive capacity, without what it took; a refused one leaves nothing, and says how long the missing
        part takes to earn. */
    method Take(n: nat, now: int) returns (wait: int)
      requires last <= now
      modifies this
      ensures (View(), wait) == Taken(old(View()), n, now)
      ensures rate == old(rate) && burstSec == old(burstSec) && capacity == old(capacity)
      ensures rate <= 0 ==> wait == 0 && unchanged(this)
      ensures rate > 0 ==>
                var level := LevelAt(old(View()), now);
                && last == now
                && (level >= n as real ==> wait == 0 && tokens == level - n as real)
                && (level < n as real ==> tokens == 0.0 && wait == ((n as real - level) * NS / rate as real).Floor)
    {
      if rate <= 0 {
        return 0;
      }
      var elapsed := (now - last) as real / NS;
      ghost var level := LevelAt(View(), now);
      TakeLeaves(View(), n, now);
      last := now;
      tokens := tokens + rate as real * elapsed;
      if capacity > 0.0 && tokens > capacity {
        tokens := capacity;
      }
      assert tokens == level;
      var need := n as real;
      if tokens >= need {
        tokens := tokens - need;
        return 0;
      }
      var deficit := need - tokens;
      tokens := 0.0;
      return (deficit * NS / rate as real).Floor;
    }
  }

  // ---------- arithmetic of the bucket ----------

  /** `rate * elapsed`, as the code computes it. */
  lemma {:induction false} CreditIsProduct(rate: int, dt: int)
    requires 0 <= dt
    ensures Credit(rate, dt) == rate as real * (dt as real / NS)
  {
    var r, x, y := rate as real, dt as real / NS, (dt - 1) as real / NS;
    if dt == 0 {
      assert r * x == 0.0;
    } else {
      CreditIsProduct(rate, dt - 1);
      assert x == y + 1.0 / NS;
      assert r * (y + 1.0 / NS) == r * y + r * (1.0 / NS);
    }
  }

  lemma {:induction false} CreditSum(rate: int, a: int, b: int)
    requires 0 <= a && 0 <= b
    ensures Credit(rate, a) + Credit(rate, b) == Credit(rate, a + b)
    decreases b
  {
    if b > 0 {
      CreditSum(rate, a, b - 1);
    }
  }

  lemma {:induction false} CreditMonotone(rate: int, rate': int, dt: int, dt': int)
    requires 0 <= rate <= rate' && dt <= dt'
    ensures 0.0 <= Credit(rate, dt) <= Credit(rate', dt')
    decreases if dt' > 0 then dt' else 0
  {
    if dt' > 0 {
      CreditMonotone(rate, rate', if dt == dt' then dt - 1 else dt, dt' - 1);
    }
  }

  lemma StrictProduct(a: real, b: real, x: real)
    requires x > 0.0
    ensures a < b ==> a * x < b * x
    ensures a <= b ==> a * x <= b * x
  {
    if a < b {
      assert (b - a) * x > 0.0;
    }
  }

  /** The wait is the last whole nanosecond that earns no more than the deficit. */
  lemma WaitNsIs(deficit: real, rate: int)
    requires rate > 0 && deficit >= 0.0
    ensures var w := WaitNs(deficit, rate);
            w >= 0 && Credit(rate, w) <= deficit < Credit(rate, w + 1)
  {
    var q := deficit * NS / rate as real;
    assert q * rate as real == deficit * NS;
    NonNegativeQuotient(q, rate as real);
    FloorEarns(deficit, rate, q);
  }

  lemma FloorEarns(deficit: real, rate: int, q: real)
    requires rate > 0 && q >= 0.0 && q * rate as real == deficit * NS
    ensures Credit(rate, q.Floor) <= deficit < Credit(rate, q.Floor + 1)
  {
    var w := q.Floor;
    assert w as real <= q < (w + 1) as real;
    StrictProduct(w as real, q, rate as real);
    CreditScaled(rate, w);
    Unscale(Credit(rate, w), deficit);
    NextEarnsMore(deficit, rate, q, w + 1);
  }

  lemma NextEarnsMore(deficit: real, rate: int, q: real, hi: nat)
    requires rate > 0 && q < hi as real && q * rate as real == deficit * NS
    ensures deficit < Credit(rate, hi)
  {
    CreditScaled(rate, hi);
    LessByProduct(q, hi as real, rate as real, deficit * NS, Credit(rate, hi) * NS);
    UnscaleStrict(deficit, Credit(rate, hi));
  }

  lemma LessByProduct(a: real, b: real, x: real, ax: real, bx: real)
    requires x > 0.0 && a < b && a * x == ax && b * x == bx
    ensures ax < bx
  {
    StrictProduct(a, b, x);
  }

  lemma Unscale(a: real, b: real)
    requires a * NS <= b * NS
    ensures a <= b
  {
  }

  lemma UnscaleStrict(a: real, b: real)
    requires a * NS < b * NS
    ensures a < b
  {
  }

  lemma NonNegativeQuotient(q: real, r: real)
    requires r > 0.0 && q * r >= 0.0
    ensures q >= 0.0
  {
  }

  lemma CreditScaled(rate: int, dt: int)
    requires 0 <= dt
    ensures Credit(rate, dt) * NS == dt as real * rate as real
  {
    CreditIsProduct(rate, dt);
    assert rate as real * (dt as real / NS) * NS == rate as real * dt as real;
  }

  // ---------- whole runs ----------

  datatype Op = TakeAt(n: nat, now: int) | ConfigureTo(rate: int, burstSec: real)

  function Apply(b: Bucket, op: Op): Bucket {
    match op
    case TakeAt(n, now) => Taken(b, n, now).0
    case ConfigureTo(rate, burstSec) => Configured(b, rate, burstSec)
  }

  function ApplyAll(b: Bucket, ops: seq<Op>): Bucket
    decreases |ops|
  {
    if ops == [] then b else ApplyAll(Apply(b, ops[0]), ops[1..])
  }

  /** Tokens granted by a limited bucket in one operation. */
  function Grant(b: Bucket, op: Op): nat {
    if op.TakeAt? && b.rate > 0 && Taken(b, op.n, op.now).1 <= 0 then op.n else 0
  }

  function Granted(b: Bucket, ops: seq<Op>): nat
    decreases |ops|
  {
    if ops == [] then 0 else Grant(b, ops[0]) + Granted(Apply(b, ops[0]), ops[1..])
  }

  /** A grant that the level does not cover: the deficit is worth less than a nanosecond. */
  function Slip(b: Bucket, op: Op): nat {
    if Grant(b, op) > 0 && Refilled(b, op.now) < op.n as real then 1 else 0
  }

  function Slips(b: Bucket, ops: seq<Op>): nat
    decreases |ops|
  {
    if ops == [] then 0 else Slip(b, ops[0]) + Slips(Apply(b, ops[0]), ops[1..])
  }

  ghost predicate OpTimed(op: Op, from: int, top: int) {
    match op
    case TakeAt(_, now) => from <= now
    case ConfigureTo(rate, _) => rate <= top
  }

  /** Times never go back, and no rate exceeds `top`. */
  ghost predicate Timed(ops: seq<Op>, from: int, top: int)
    decreases |ops|
  {
    ops == [] || (OpTimed(ops[0], from, top) && Timed(ops[1..], if ops[0].TakeAt? then ops[0].now else from, top))
  }

  lemma ConfigureKeeps(b: Bucket, rate: int, burstSec: real)
    requires Valid(b)
    ensures var b' := Configured(b, rate, burstSec); Valid(b') && b'.tokens <= b.tokens && b'.last == b.last
  {
  }

  /** A take never leaves more than it found, earned and granted, but for a slip of one nanosecond;
      and a positive capacity is never exceeded. */
  lemma TakeAccount(b: Bucket, n: nat, now: int)
    requires Valid(b) && b.rate > 0 && b.last <= now
    ensures var (b', w) := Taken(b, n, now);
            && Valid(b') && b'.rate == b.rate && b'.last == now && w >= 0
            && Grant(b, TakeAt(n, now)) as real + b'.tokens
               <= Refilled(b, now) + Credit(b.rate, Slip(b, TakeAt(n, now)))
            && 0.0 <= Refilled(b, now) <= b.tokens + Credit(b.rate, now - b.last)
  {
    CreditMonotone(b.rate, b.rate, 0, now - b.last);
    var level := Refilled(b, now);
    if level < n as real {
      var deficit := n as real - level;
      WaitNsIs(deficit, b.rate);
    }
  }

  lemma StepAccount(b: Bucket, op: Op, top: int)
    requires Valid(b) && b.rate <= top && 0 <= top && OpTimed(op, b.last, top)
    ensures var b' := Apply(b, op);
            && Valid(b') && b'.rate <= top && b.last <= b'.last
            && Grant(b, op) as real + b'.tokens
               <= b.tokens + Credit(top, b'.last - b.last) + Credit(top, Slip(b, op))
  {
    CreditMonotone(0, top, 0, 1);
    CreditMonotone(top, top, 0, 0);
    match op
    case ConfigureTo(rate, burstSec) =>
      ConfigureKeeps(b, rate, burstSec);
      CreditMonotone(top, top, 0, 0);
    case TakeAt(n, now) =>
      CreditMonotone(top, top, 0, now - b.last);
      if b.rate > 0 {
        TakeAccount(b, n, now);
        CreditMonotone(b.rate, top, now - b.last, now - b.last);
        CreditMonotone(b.rate, top, 1, 1);
      }
  }

  lemma {:induction false} TimedEarlier(ops: seq<Op>, from: int, from': int, top: int)
    requires Timed(ops, from', top) && from <= from'
    ensures Timed(ops, from, top)
    decreases |ops|
  {
    if ops != [] && ops[0].ConfigureTo? {
      TimedEarlier(ops[1..], from, from', top);
    }
  }

  /** Under any reconfiguration, all that a limited bucket grants is covered by its first level and
      by what the highest rate earns in the time elapsed, with one nanosecond more for each slip. */
  lemma {:induction false} ConfiguredBound(b: Bucket, ops: seq<Op>, top: int)
    requires Valid(b) && b.rate <= top && 0 <= top && Timed(ops, b.last, top)
    ensures var b' := ApplyAll(b, ops);
            && Valid(b') && b.last <= b'.last
            && Granted(b, ops) as real + b'.tokens
               <= b.tokens + Credit(top, b'.last - b.last + Slips(b, ops))
    decreases |ops|
  {
    if ops == [] {
      CreditMonotone(top, top, 0, 0);
    } else {
      var op, rest := ops[0], ops[1..];
      var b1 := Apply(b, op);
      StepAccount(b, op, top);
      TimedEarlier(rest, b1.last, if op.TakeAt? then op.now else b.last, top);
      ConfiguredBound(b1, rest, top);
      var b2 := ApplyAll(b1, rest);
      CreditSum(top, b1.last - b.last, Slip(b, op));
      CreditSum(top, b1.last - b.last + Slip(b, op), b2.last - b1.last + Slips(b1, rest));
    }
  }

  /** Every operation is a take between two points in time. */
  ghost predicate TakesWithin(ops: seq<Op>, s: int, t: int) {
    forall i :: 0 <= i < |ops| ==> ops[i].TakeAt? && s <= ops[i].now <= t
  }

  lemma {:induction false} LastWithin(b: Bucket, ops: seq<Op>, s: int, t: int)
    requires TakesWithin(ops, s, t) && b.last <= t
    ensures ApplyAll(b, ops).last <= t
    decreases |ops|
  {
    if ops != [] {
      LastWithin(Apply(b, ops[0]), ops[1..], s, t);
    }
  }

  /** In every window of every run a bucket of fixed rate grants at most its capacity and what the
      rate earns in the window, with one nanosecond more for each slip. */
  lemma WindowBound(b: Bucket, ops: seq<Op>, s: int, t: int)
    requires Valid(b) && b.rate > 0 && b.capacity > 0.0 && s <= t
    requires Timed(ops, b.last, b.rate) && TakesWithin(ops, s, t)
    ensures Granted(b, ops) as real <= b.capacity + Credit(b.rate, t - s + Slips(b, ops))
  {
    CreditMonotone(b.rate, b.rate, 0, t - s + Slips(b, ops));
    if ops != [] {
      var first := ops[0].now;
      var b1 := b.(tokens := Refilled(b, first), last := first);
      TakeAccount(b, ops[0].n, first);
      assert Apply(b1, ops[0]) == Apply(b, ops[0]);
      ConfiguredBound(b1, ops, b.rate);
      LastWithin(b1, ops, s, t);
      CreditMonotone(b.rate, b.rate, ApplyAll(b1, ops).last - first + Slips(b1, ops), t - s + Slips(b, ops));
    }
  }

  // ---------- what is granted ----------

  /** What a bucket holds at `now`, as the code computes it: no more than a positive capacity. */
  function LevelAt(b: Bucket, now: int): (level: real)
    requires b.last <= now
  {
    var earned := b.tokens + b.rate as real * ((now - b.last) as real / NS);
    if b.capacity > 0.0 && b.capacity < earned then b.capacity else earned
  }

  /** A take of a limited bucket is covered exactly by the level: then it is granted at once and leaves the
      level without its tokens; otherwise it leaves nothing. */
  lemma TakeLeaves(b: Bucket, n: nat, now: int)
    requires b.rate > 0 && b.last <= now
    ensures var (b', w) := Taken(b, n, now);
            && b' == b.(tokens := b'.tokens, last := now)
            && (n as real <= LevelAt(b, now) ==> w == 0 && b'.tokens == LevelAt(b, now) - n as real)
            && (LevelAt(b, now) < n as real ==>
                  b'.tokens == 0.0 && w == ((n as real - LevelAt(b, now)) * NS / b.rate as real).Floor)
  {
    CreditIsProduct(b.rate, now - b.last);
  }

  function Total(ops: seq<Op>): nat {
    if ops == [] then 0 else (if ops[0].TakeAt? then ops[0].n else 0) + Total(ops[1..])
  }

  ghost predicate Takes(ops: seq<Op>) {
    forall i :: 0 <= i < |ops| ==> ops[i].TakeAt?
  }

  /** Every take finds its tokens in the bucket. */
  ghost predicate AllCovered(b: Bucket, ops: seq<Op>)
    requires Takes(ops)
    decreases |ops|
  {
    ops == [] || (ops[0].n as real <= Refilled(b, ops[0].now) && AllCovered(Apply(b, ops[0]), ops[1..]))
  }

  /** Up to take `i`: no more than the first level and what has been earned since. */
  ghost predicate WithinLevel(b: Bucket, ops: seq<Op>, i: nat)
    requires Takes(ops) && i < |ops|
  {
    Total(ops[..i + 1]) as real <= b.tokens + Credit(b.rate, ops[i].now - b.last)
  }

  /** From take `j` to take `i`: no more than a full bucket and what is earned between them. */
  ghost predicate WithinBurst(b: Bucket, ops: seq<Op>, j: nat, i: nat)
    requires Takes(ops) && j <= i < |ops|
  {
    b.capacity > 0.0 ==> Total(ops[j..i + 1]) as real <= b.capacity + Credit(b.rate, ops[i].now - ops[j].now)
  }

  ghost predicate Conforms(b: Bucket, ops: seq<Op>)
    requires Takes(ops)
  {
    && (forall i: nat :: i < |ops| ==> WithinLevel(b, ops, i))
    && (forall j: nat, i: nat :: j <= i < |ops| ==> WithinBurst(b, ops, j, i))
  }

  lemma FirstCovered(b: Bucket, ops: seq<Op>)
    requires Takes(ops) && ops != []
    ensures ops[0].n as real <= Refilled(b, ops[0].now) <==> WithinLevel(b, ops, 0) && WithinBurst(b, ops, 0, 0)
  {
    var one := [ops[0]];
    assert ops[..0 + 1] == one && ops[0..0 + 1] == one;
    assert one[1..] == [] && Total(one) == ops[0].n;
  }

  lemma TotalTail(ops: seq<Op>, i: nat)
    requires Takes(ops) && 0 < i < |ops|
    ensures Total(ops[..i + 1]) == ops[0].n + Total(ops[1..][..i])
    ensures ops[0..i + 1] == ops[..i + 1]
  {
    assert ops[..i + 1][1..] == ops[1..][..i];
  }

  /** After a covered first take the level of the rest speaks for the first take too. */
  lemma LevelShifts(b: Bucket, ops: seq<Op>, i: nat)
    requires Takes(ops) && 0 < i < |ops| && b.rate > 0 && b.last <= ops[0].now <= ops[i].now
    requires ops[0].n as real <= Refilled(b, ops[0].now)
    ensures WithinLevel(Apply(b, ops[0]), ops[1..], i - 1)
            <==> WithinLevel(b, ops, i) && WithinBurst(b, ops, 0, i)
  {
    TotalTail(ops, i);
    CreditSum(b.rate, ops[0].now - b.last, ops[i].now - ops[0].now);
  }

  lemma BurstShifts(b: Bucket, ops: seq<Op>, j: nat, i: nat)
    requires Takes(ops) && 0 < j <= i < |ops| && b.rate > 0
    ensures WithinBurst(Apply(b, ops[0]), ops[1..], j - 1, i - 1) <==> WithinBurst(b, ops, j, i)
  {
    assert ops[1..][j - 1..i] == ops[j..i + 1];
  }

  /** Every take at a time from `from` on. */
  lemma {:induction false} TimedAfter(ops: seq<Op>, from: int, top: int, i: nat)
    requires Takes(ops) && Timed(ops, from, top) && i < |ops|
    ensures from <= ops[0].now <= ops[i].now
    decreases |ops|
  {
    if i > 0 {
      TimedAfter(ops[1..], ops[0].now, top, i - 1);
    }
  }

  lemma ConformsRest(b: Bucket, ops: seq<Op>)
    requires Takes(ops) && ops != [] && b.rate > 0 && Timed(ops, b.last, b.rate)
    requires ops[0].n as real <= Refilled(b, ops[0].now)
    ensures Conforms(b, ops) ==> Conforms(Apply(b, ops[0]), ops[1..])
  {
    var b1, rest := Apply(b, ops[0]), ops[1..];
    if Conforms(b, ops) {
      forall i: nat | i < |rest| ensures WithinLevel(b1, rest, i) {
        TimedAfter(ops, b.last, b.rate, i + 1);
        LevelShifts(b, ops, i + 1);
      }
      forall j: nat, i: nat | j <= i < |rest| ensures WithinBurst(b1, rest, j, i) {
        BurstShifts(b, ops, j + 1, i + 1);
      }
    }
  }

  lemma ConformsWhole(b: Bucket, ops: seq<Op>)
    requires Takes(ops) && ops != [] && b.rate > 0 && Timed(ops, b.last, b.rate)
    requires ops[0].n as real <= Refilled(b, ops[0].now) && Conforms(Apply(b, ops[0]), ops[1..])
    ensures Conforms(b, ops)
  {
    var b1, rest := Apply(b, ops[0]), ops[1..];
    FirstCovered(b, ops);
    forall i: nat | 0 < i < |ops| ensures WithinLevel(b, ops, i) && WithinBurst(b, ops, 0, i) {
      TimedAfter(ops, b.last, b.rate, i);
      LevelShifts(b, ops, i);
      assert WithinLevel(b1, rest, i - 1);
    }
    forall j: nat, i: nat | 0 < j <= i < |ops| ensures WithinBurst(b, ops, j, i) {
      BurstShifts(b, ops, j, i);
      assert WithinBurst(b1, rest, j - 1, i - 1);
    }
  }

  lemma CoveredIsGranted(b: Bucket, op: Op)
    requires op.TakeAt? && b.rate > 0 && op.n as real <= Refilled(b, op.now)
    ensures Grant(b, op) == op.n && Slip(b, op) == 0
  {
  }

  /** Any number of takes finds its tokens if and only if, up to each of them, the takes stay within the
      first level and what has been earned, and, between any two, within a full bucket and what is earned
      in between.  They are then all granted at once. */
  lemma {:induction false} CoveredExactly(b: Bucket, ops: seq<Op>)
    requires b.rate > 0 && Takes(ops) && Timed(ops, b.last, b.rate)
    ensures AllCovered(b, ops) <==> Conforms(b, ops)
    ensures AllCovered(b, ops) ==> Granted(b, ops) == Total(ops) && Slips(b, ops) == 0
    decreases |ops|
  {
    if ops != [] {
      FirstCovered(b, ops);
      if ops[0].n as real <= Refilled(b, ops[0].now) {
        CoveredExactly(Apply(b, ops[0]), ops[1..]);
        CoveredIsGranted(b, ops[0]);
        ConformsRest(b, ops);
        if Conforms(Apply(b, ops[0]), ops[1..]) {
          ConformsWhole(b, ops);
        }
      }
    }
  }

  /** Takes that together want no more than is there are all granted at once. */
  lemma LevelIsEnough(b: Bucket, ops: seq<Op>)
    requires Valid(b) && b.rate > 0 && Takes(ops) && Timed(ops, b.last, b.rate) && Total(ops) as real <= b.tokens
    ensures AllCovered(b, ops) && Granted(b, ops) == Total(ops)
  {
    forall i: nat | i < |ops| ensures WithinLevel(b, ops, i) {
      TimedAfter(ops, b.last, b.rate, i);
      CreditMonotone(b.rate, b.rate, 0, ops[i].now - b.last);
      TotalPart(ops, 0, i + 1);
    }
    forall j: nat, i: nat | j <= i < |ops| ensures WithinBurst(b, ops, j, i) {
      TimedBetween(ops, b.last, b.rate, j, i);
      CreditMonotone(b.rate, b.rate, 0, ops[i].now - ops[j].now);
      TotalPart(ops, j, i + 1);
    }
    CoveredExactly(b, ops);
  }

  lemma {:induction false} TotalConcat(a: seq<Op>, c: seq<Op>)
    ensures Total(a + c) == Total(a) + Total(c)
  {
    if a == [] {
      assert a + c == c;
    } else {
      assert (a + c)[1..] == a[1..] + c;
      TotalConcat(a[1..], c);
    }
  }

  lemma TotalPart(ops: seq<Op>, j: nat, i: nat)
    requires j <= i <= |ops|
    ensures Total(ops[j..i]) <= Total(ops)
  {
    assert ops == ops[..j] + (ops[j..i] + ops[i..]);
    TotalConcat(ops[..j], ops[j..i] + ops[i..]);
    TotalConcat(ops[j..i], ops[i..]);
  }

  lemma {:induction false} TimedBetween(ops: seq<Op>, from: int, top: int, j: nat, i: nat)
    requires Takes(ops) && Timed(ops, from, top) && j <= i < |ops|
    ensures ops[j].now <= ops[i].now
    decreases |ops|
  {
    if j > 0 {
      TimedBetween(ops[1..], ops[0].now, top, j - 1, i - 1);
    } else {
      TimedAfter(ops, from, top, i);
    }
  }

  /** What the bucket holds in the end, `end` being the time of its last take: all of the first level and of
      what was earned that was not taken, unless some of it did not fit the capacity; then what a bucket
      that was full at one of the takes has left. */
  ghost predicate IsLevelLeft(b: Bucket, ops: seq<Op>, level: real)
    requires Takes(ops) && ops != []
  {
    var end := ops[|ops| - 1].now;
    && level <= FromLevel(b, ops, end)
    && (b.capacity > 0.0 ==> forall j: nat :: j < |ops| ==> level <= FromFull(b, ops, j, end))
    && (level == FromLevel(b, ops, end)
        || (b.capacity > 0.0 && exists j: nat :: j < |ops| && level == FromFull(b, ops, j, end)))
  }

  function FromLevel(b: Bucket, ops: seq<Op>, end: int): real {
    b.tokens + Credit(b.rate, end - b.last) - Total(ops) as real
  }

  function FromFull(b: Bucket, ops: seq<Op>, j: nat, end: int): real
    requires j < |ops| && ops[j].TakeAt?
  {
    b.capacity + Credit(b.rate, end - ops[j].now) - Total(ops[j..]) as real
  }

  lemma LevelOfFirst(b: Bucket, ops: seq<Op>, end: int)
    requires Takes(ops) && ops != [] && b.rate > 0 && b.last <= ops[0].now <= end
    requires ops[0].n as real <= Refilled(b, ops[0].now)
    ensures var here := FromLevel(Apply(b, ops[0]), ops[1..], end);
            here == if b.capacity > 0.0 && FromFull(b, ops, 0, end) < FromLevel(b, ops, end)
                    then FromFull(b, ops, 0, end) else FromLevel(b, ops, end)
  {
    assert ops[0..] == ops;
    CreditSum(b.rate, ops[0].now - b.last, end - ops[0].now);
  }

  lemma LevelOfOne(b: Bucket, op: Op)
    requires op.TakeAt? && b.rate > 0 && b.last <= op.now && op.n as real <= Refilled(b, op.now)
    ensures IsLevelLeft(b, [op], Apply(b, op).tokens)
  {
    LevelOfFirst(b, [op], op.now);
    assert [op][1..] == [];
  }

  lemma FullShifts(b: Bucket, ops: seq<Op>, j: nat, end: int)
    requires Takes(ops) && 0 < j < |ops| && b.rate > 0
    ensures FromFull(Apply(b, ops[0]), ops[1..], j - 1, end) == FromFull(b, ops, j, end)
  {
    assert ops[1..][j - 1..] == ops[j..];
  }

  lemma LevelOfRest(b: Bucket, ops: seq<Op>, level: real)
    requires Takes(ops) && |ops| > 1 && b.rate > 0 && b.last <= ops[0].now <= ops[|ops| - 1].now
    requires ops[0].n as real <= Refilled(b, ops[0].now)
    requires IsLevelLeft(Apply(b, ops[0]), ops[1..], level)
    ensures IsLevelLeft(b, ops, level)
  {
    var end, b1, rest := ops[|ops| - 1].now, Apply(b, ops[0]), ops[1..];
    LevelOfFirst(b, ops, end);
    forall j: nat | 0 < j < |ops| ensures FromFull(b1, rest, j - 1, end) == FromFull(b, ops, j, end) {
      FullShifts(b, ops, j, end);
    }
    if level == FromLevel(b1, rest, end) {
      assert level == FromLevel(b, ops, end) || level == FromFull(b, ops, 0, end);
    } else {
      var j: nat :| j < |rest| && level == FromFull(b1, rest, j, end);
      assert level == FromFull(b, ops, j + 1, end);
    }
    forall j: nat | j < |ops| && b.capacity > 0.0 ensures level <= FromFull(b, ops, j, end) {
      if j > 0 {
        assert level <= FromFull(b1, rest, j - 1, end);
      }
    }
  }

  /** After takes that are all covered, the bucket holds exactly that. */
  lemma {:induction false} LevelLeft(b: Bucket, ops: seq<Op>)
    requires b.rate > 0 && Takes(ops) && ops != [] && Timed(ops, b.last, b.rate) && AllCovered(b, ops)
    ensures IsLevelLeft(b, ops, ApplyAll(b, ops).tokens)
    decreases |ops|
  {
    if |ops| == 1 {
      assert ops == [ops[0]] && ops[1..] == [];
      LevelOfOne(b, ops[0]);
    } else {
      LevelLeft(Apply(b, ops[0]), ops[1..]);
      TimedAfter(ops, b.last, b.rate, |ops| - 1);
      assert ops[1..][|ops[1..]| - 1] == ops[|ops| - 1];
      LevelOfRest(b, ops, ApplyAll(b, ops).tokens);
    }
  }

  /** Ten tokens a second and ten seconds of burst: of a full bucket two takes of one token at one instant
      leave 98. */
  lemma TwoTakes(now: int)
    ensures var b := Bucket(10, 10.0, 100.0, 100.0, now);
            Valid(b) && Taken(b, 1, now) == (b.(tokens := 99.0), 0)
            && Taken(b.(tokens := 99.0), 1, now) == (b.(tokens := 98.0), 0)
  {
  }

  // ---------- retries ----------

  /** The request is not larger than a positive capacity, to the nanosecond. */
  predicate Fits(b: Bucket, n: nat) {
    b.capacity == 0.0 || n as real < b.capacity + Credit(b.rate, 1)
  }

  lemma WaitNsUnique(deficit: real, rate: int, w: nat)
    requires rate > 0 && deficit >= 0.0 && Credit(rate, w) <= deficit < Credit(rate, w + 1)
    ensures WaitNs(deficit, rate) == w
  {
    WaitNsIs(deficit, rate);
    var v := WaitNs(deficit, rate);
    if v < w { CreditMonotone(rate, rate, v + 1, w); }
    if w < v { CreditMonotone(rate, rate, w + 1, v); }
  }

  /** A level grants a request when less than a nanosecond's worth is missing. */
  lemma GrantIff(b: Bucket, n: nat, now: int)
    requires b.rate > 0
    ensures Taken(b, n, now).1 <= 0 <==> (n as real) < Refilled(b, now) + Credit(b.rate, 1)
  {
    var level := Refilled(b, now);
    CreditMonotone(b.rate, b.rate, 0, 0);
    if level < n as real {
      var deficit := n as real - level;
      WaitNsIs(deficit, b.rate);
      if deficit < Credit(b.rate, 1) {
        WaitNsUnique(deficit, b.rate, 0);
      }
    }
  }

  /** An emptied bucket. */
  predicate EmptyAt(b: Bucket, now: int) {
    b.rate > 0 && b.tokens == 0.0 && b.last == now && b.capacity >= 0.0
  }

  /** After a refusal, with no other taker, the next take of `n` is granted exactly when the request
      fits the capacity and the time since is what all of `n` takes to earn, to the nanosecond: what
      was in the bucket before is lost. */
  lemma RetryLaw(b: Bucket, n: nat, t: int, dt: nat)
    requires EmptyAt(b, t)
    ensures Taken(b, n, t + dt).1 <= 0 <==> Fits(b, n) && (n as real) < Credit(b.rate, dt + 1)
  {
    GrantIff(b, n, t + dt);
    assert Credit(b.rate, 1) == Credit(b.rate, 0) + b.rate as real / NS;
  }

  lemma RefusedIsEmpty(b: Bucket, n: nat, t: int)
    requires Valid(b) && Taken(b, n, t).1 > 0
    ensures EmptyAt(Taken(b, n, t).0, t) && Taken(b, n, t).0.capacity == b.capacity && Taken(b, n, t).0.rate == b.rate
  {
  }

  /** A request that does not fit a positive capacity is refused at any time. */
  lemma TooLargeRefused(b: Bucket, n: nat, now: int)
    requires b.rate > 0 && b.capacity >= 0.0 && !Fits(b, n)
    ensures Taken(b, n, now).1 > 0
  {
    GrantIff(b, n, now);
  }

  /** The nanoseconds that all of `n` takes to earn. */
  function FullWait(n: nat, rate: int): int
    requires rate > 0
  {
    WaitNs(n as real, rate)
  }

  /** Is the request granted within `k` retries, each made exactly when the last wait is over? */
  predicate GrantedWithin(b: Bucket, n: nat, now: int, w: int, k: nat)
    decreases k
  {
    k > 0 && var (b', w') := Taken(b, n, now + w); w' <= 0 || GrantedWithin(b', n, now + w, w', k - 1)
  }

  /** A first retry too early is refused, and its wait is what is missing of the full wait. */
  lemma EarlyRetry(b: Bucket, n: nat, now: int, w: nat)
    requires EmptyAt(b, now) && Fits(b, n) && 0 < w < FullWait(n, b.rate)
    ensures var (b', w') := Taken(b, n, now + w);
            EmptyAt(b', now + w) && b'.capacity == b.capacity && b'.rate == b.rate && w' == FullWait(n, b.rate) - w
  {
    var full := FullWait(n, b.rate);
    WaitNsIs(n as real, b.rate);
    CreditMonotone(b.rate, b.rate, w + 1, full);
    CreditSum(b.rate, w, full - w);
    CreditSum(b.rate, w, full + 1 - w);
    CreditMonotone(b.rate, b.rate, 0, full - w);
    CreditMonotone(b.rate, b.rate, 0, w);
    assert Credit(b.rate, w + 1) == Credit(b.rate, w) + Credit(b.rate, 1) by { CreditSum(b.rate, w, 1); }
    assert Refilled(b, now + w) == Credit(b.rate, w);
    CreditMonotone(b.rate, b.rate, 1, full - w);
    WaitNsUnique(n as real - Credit(b.rate, w), b.rate, full - w);
  }

  lemma {:induction false} AloneFrom(b: Bucket, n: nat, now: int, w: nat, k: nat)
    requires EmptyAt(b, now) && Fits(b, n) && 0 < w <= FullWait(n, b.rate) && k >= 1
    ensures GrantedWithin(b, n, now, w, k) <==> w == FullWait(n, b.rate)
    decreases k
  {
    var full := FullWait(n, b.rate);
    if w == full {
      WaitNsIs(n as real, b.rate);
      RetryLaw(b, n, now, w);
    } else {
      EarlyRetry(b, n, now, w);
      if k > 1 {
        AloneFrom(Taken(b, n, now + w).0, n, now + w, full - w, k - 1);
      }
    }
  }

  lemma WaitOfRefusal(b: Bucket, n: nat, now: int)
    requires Valid(b) && b.rate > 0 && b.last <= now && Taken(b, n, now).1 > 0
    ensures var w := Taken(b, n, now).1;
            && w <= FullWait(n, b.rate)
            && (Refilled(b, now) == 0.0 ==> w == FullWait(n, b.rate))
            && (Credit(b.rate, 1) <= Refilled(b, now) ==> w < FullWait(n, b.rate))
  {
    CreditMonotone(b.rate, b.rate, 0, now - b.last);
    var full, w, level := FullWait(n, b.rate), Taken(b, n, now).1, Refilled(b, now);
    WaitNsIs(n as real, b.rate);
    WaitNsIs(n as real - level, b.rate);
    if full < w { CreditMonotone(b.rate, b.rate, full + 1, w); }
    CreditSum(b.rate, w, 1);
  }

  /** Alone, with exact wake-ups: a refused request that fits is granted on the first retry when the
      wait it was given is the full one, and otherwise never.  An empty bucket gives the full wait; a
      level worth a nanosecond or more gives a shorter one. */
  lemma AloneExactly(b: Bucket, n: nat, now: int, k: nat)
    requires Valid(b) && b.rate > 0 && b.last <= now && Taken(b, n, now).1 > 0 && Fits(b, n) && k >= 1
    ensures var (b', w) := Taken(b, n, now);
            && (GrantedWithin(b', n, now, w, k) <==> w == FullWait(n, b.rate))
            && (Refilled(b, now) == 0.0 ==> w == FullWait(n, b.rate))
            && (Credit(b.rate, 1) <= Refilled(b, now) ==> w < FullWait(n, b.rate))
  {
    RefusedIsEmpty(b, n, now);
    WaitOfRefusal(b, n, now);
    AloneFrom(Taken(b, n, now).0, n, now, Taken(b, n, now).1, k);
  }

  // ---------- the global bucket, shared ----------

  const MIN_SHARED_WAIT := 200000

  /** The fair-queue wait of `waitGlobal`. */
  function SharedWait(w: int, peers: nat): int {
    if peers <= 1 then w
    else
      var d := w / (if peers < 16 then peers else 16);
      if d < MIN_SHARED_WAIT then MIN_SHARED_WAIT else d
  }

  /** Alone a session waits what it was told.  With peers the wait is divided among them, sixteen at most,
      to the nanosecond, but never cut below 200 microseconds. */
  lemma SharedWaitIs(w: nat, peers: nat)
    ensures var d, among := SharedWait(w, peers), if peers < 16 then peers else 16;
            && (peers <= 1 ==> d == w)
            && (peers >= 2 ==> d >= 200000)
            && (peers >= 2 && d > 200000 ==> among * d <= w < among * (d + 1))
            && (peers >= 2 && d == 200000 ==> w < among * 200001)
  {
    if peers >= 2 {
      var among := if peers < 16 then peers else 16;
      Divided(w, among);
      var d := w / among;
      if d < 200000 {
        ScaledInt(among, d + 1, 200001);
      }
    }
  }

  lemma Divided(w: nat, p: nat)
    requires p >= 1
    ensures p * (w / p) <= w < p * (w / p + 1)
  {
  }

  lemma ScaledInt(p: nat, a: int, b: int)
    requires a <= b
    ensures p * a <= p * b
  {
  }

  /** Is the request granted by one retry for each entry of `peers`, each made exactly on time? */
  predicate GrantedShared(b: Bucket, n: nat, now: int, w: int, peers: seq<nat>)
    decreases |peers|
  {
    peers != [] &&
    var d := SharedWait(w, peers[0]);
    var (b', w') := Taken(b, n, now + d);
    w' <= 0 || GrantedShared(b', n, now + d, w', peers[1..])
  }

  lemma SharedTooEarly(b: Bucket, n: nat, now: int, w: nat, peers: nat)
    requires EmptyAt(b, now) && 0 < w <= FullWait(n, b.rate) && peers >= 2 && FullWait(n, b.rate) > MIN_SHARED_WAIT
    ensures var d := SharedWait(w, peers); 0 <= d < FullWait(n, b.rate) && Taken(b, n, now + d).1 > 0
  {
    var d, full := SharedWait(w, peers), FullWait(n, b.rate);
    WaitNsIs(n as real, b.rate);
    HalfAtMost(w, if peers < 16 then peers else 16);
    CreditMonotone(b.rate, b.rate, d + 1, full);
    RetryLaw(b, n, now, d);
  }

  lemma HalfAtMost(w: nat, p: nat)
    requires p >= 2
    ensures 0 <= w / p <= w / 2
  {
    var q := w / p;
    assert q * p <= w;
    assert q * 2 <= q * p;
  }

  lemma {:induction false} SharedFrom(b: Bucket, n: nat, now: int, w: nat, peers: seq<nat>)
    requires EmptyAt(b, now) && Fits(b, n) && 0 < w <= FullWait(n, b.rate)
    requires peers != [] && forall i :: 0 <= i < |peers| ==> peers[i] >= 2
    ensures GrantedShared(b, n, now, w, peers) <==> FullWait(n, b.rate) <= MIN_SHARED_WAIT
    decreases |peers|
  {
    var full, d := FullWait(n, b.rate), SharedWait(w, peers[0]);
    if full <= MIN_SHARED_WAIT {
      WaitNsIs(n as real, b.rate);
      CreditMonotone(b.rate, b.rate, full + 1, d + 1);
      RetryLaw(b, n, now, d);
    } else {
      SharedTooEarly(b, n, now, w, peers[0]);
      var (b', w') := Taken(b, n, now + d);
      EmptyValid(b, n, now + d);
      if |peers| > 1 {
        SharedFrom(b', n, now + d, w', peers[1..]);
      }
    }
  }

  lemma EmptyValid(b: Bucket, n: nat, t: int)
    requires b.rate > 0 && b.tokens == 0.0 && b.capacity >= 0.0 && b.last <= t && Taken(b, n, t).1 > 0
    ensures var (b', w) := Taken(b, n, t);
            EmptyAt(b', t) && b'.capacity == b.capacity && b'.rate == b.rate && w <= FullWait(n, b.rate)
  {
    CreditMonotone(b.rate, b.rate, 0, t - b.last);
    var full, w, level := FullWait(n, b.rate), Taken(b, n, t).1, Refilled(b, t);
    WaitNsIs(n as real, b.rate);
    WaitNsIs(n as real - level, b.rate);
    if full < w { CreditMonotone(b.rate, b.rate, full + 1, w); }
  }

  /** With other sessions around, and exact wake-ups: a refused request that fits is granted if and
      only if all of it is earned within 200 microseconds. */
  lemma SharedExactly(b: Bucket, n: nat, now: int, peers: seq<nat>)
    requires Valid(b) && b.rate > 0 && b.last <= now && Taken(b, n, now).1 > 0 && Fits(b, n)
    requires peers != [] && forall i :: 0 <= i < |peers| ==> peers[i] >= 2
    ensures var (b', w) := Taken(b, n, now);
            GrantedShared(b', n, now, w, peers) <==> FullWait(n, b.rate) <= 200000
  {
    RefusedIsEmpty(b, n, now);
    WaitOfRefusal(b, n, now);
    SharedFrom(Taken(b, n, now).0, n, now, Taken(b, n, now).1, peers);
  }

  // ---------- the repair ----------

  /** A take that keeps the level when it refuses. */
  function TakenKeeping(b: Bucket, n: nat, now: int): (Bucket, int) {
    if b.rate <= 0 then (b, 0)
    else
      var level := Refilled(b, now);
      if level >= n as real then (b.(tokens := level - n as real, last := now), 0)
      else (b.(tokens := level, last := now), WaitNs(n as real - level, b.rate))
  }

  /** Keeping the level makes the returned wait enough. */
  lemma KeepingIsGranted(b: Bucket, n: nat, now: int)
    requires Valid(b) && b.rate > 0 && b.last <= now && TakenKeeping(b, n, now).1 > 0 && Fits(b, n)
    ensures var (b', w) := TakenKeeping(b, n, now); TakenKeeping(b', n, now + w).1 <= 0
  {
    var (b', w) := TakenKeeping(b, n, now);
    var level := Refilled(b, now);
    WaitNsIs(n as real - level, b.rate);
    GrantIff(b', n, now + w);
    assert Credit(b.rate, w + 1) == Credit(b.rate, w) + Credit(b.rate, 1) by { CreditSum(b.rate, w, 1); }
  }
}
