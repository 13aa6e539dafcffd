/**
 The limiter around its buckets: the wait loops of a session, any number of sessions sharing the
 global bucket, and the sliding window behind the reported rate.
 */
module Limiter {
  import opened RateLimit

  // ---------- the wait loops ----------

  /** A turn of a wait loop: when it runs and whether it finds the session paused.  When the turns are
      used up the request's context is cancelled. */
  datatype Turn = Turn(now: int, paused: bool)

  ghost predicate TurnsFrom(turns: seq<Turn>, from: int) {
    turns == [] || (from <= turns[0].now && TurnsFrom(turns[1..], turns[0].now))
  }

  /** A wait loop over its turns: the bucket afterwards, whether it came back with a grant, and how
      many turns it took. */
  function Waited(b: Bucket, n: nat, turns: seq<Turn>): (r: (Bucket, bool, nat))
    ensures r.2 <= |turns|
    decreases |turns|
  {
    if turns == [] then (b, false, 0)
    else
      var (b', w) := if turns[0].paused then (b, 1) else Taken(b, n, turns[0].now);
      if w <= 0 then (b', true, 1)
      else var (b'', ok, k) := Waited(b', n, turns[1..]); (b'', ok, k + 1)
  }

  /** `waitSession`, and with turns that are never paused `waitGlobal`. */
  method WaitLoop(o: BucketObject, n: nat, turns: seq<Turn>) returns (ok: bool, used: nat)
    requires TurnsFrom(turns, o.last)
    modifies o
    ensures (o.View(), ok, used) == Waited(old(o.View()), n, turns)
  {
    ok, used := false, 0;
    ghost var all := Waited(o.View(), n, turns);
    while used < |turns|
      invariant used <= |turns| && TurnsFrom(turns[used..], o.last)
      invariant var r := Waited(o.View(), n, turns[used..]); all == (r.0, r.1, used + r.2)
    {
      var turn := turns[used];
      assert turns[used..][0] == turn && turns[used..][1..] == turns[used + 1..];
      used := used + 1;
      TurnsEarlier(turns[used..], o.last, turn.now);
      if !turn.paused {
        var wait := o.Take(n, turn.now);
        TurnsEarlier(turns[used..], o.last, turn.now);
        if wait <= 0 {
          return true, used;
        }
      }
    }
  }

  lemma TurnsEarlier(turns: seq<Turn>, from: int, from': int)
    requires from <= from'
    ensures TurnsFrom(turns, from') ==> TurnsFrom(turns, from)
  {
  }

  /** While the session is paused it takes nothing, however full its bucket is. */
  lemma {:induction false} PausedWaits(b: Bucket, n: nat, turns: seq<Turn>)
    requires forall i :: 0 <= i < |turns| ==> turns[i].paused
    ensures Waited(b, n, turns) == (b, false, |turns|)
    decreases |turns|
  {
    if turns != [] {
      PausedWaits(b, n, turns[1..]);
    }
  }

  /** The takes that the loop makes, as operations on the bucket. */
  function Tries(b: Bucket, n: nat, turns: seq<Turn>): seq<Op>
    decreases |turns|
  {
    if turns == [] then []
    else if turns[0].paused then Tries(b, n, turns[1..])
    else
      var (b', w) := Taken(b, n, turns[0].now);
      [TakeAt(n, turns[0].now)] + if w <= 0 then [] else Tries(b', n, turns[1..])
  }

  /** A wait takes its tokens exactly once when it succeeds and never when it fails. */
  lemma {:induction false} WaitTakesOnce(b: Bucket, n: nat, turns: seq<Turn>)
    requires b.rate > 0
    ensures var (b', ok, _) := Waited(b, n, turns);
            && ApplyAll(b, Tries(b, n, turns)) == b'
            && Granted(b, Tries(b, n, turns)) == if ok then n else 0
    decreases |turns|
  {
    if turns != [] {
      var rest := turns[1..];
      if turns[0].paused {
        WaitTakesOnce(b, n, rest);
      } else {
        var op := TakeAt(n, turns[0].now);
        var (b1, w) := Taken(b, n, turns[0].now);
        if w <= 0 {
          assert [op] + [] == [op] && [op][1..] == [];
        } else {
          WaitTakesOnce(b1, n, rest);
          assert ([op] + Tries(b1, n, rest))[1..] == Tries(b1, n, rest);
        }
      }
    }
  }

  /** `SessionBucket.Wait`: the session's bucket, then the global one. */
  method Wait(own: BucketObject, shared: BucketObject, n: nat, turns: seq<Turn>,
              globalTurns: seq<Turn>) returns (ok: bool)
    requires own != shared && TurnsFrom(turns, own.last) && TurnsFrom(globalTurns, shared.last)
    modifies own, shared
    ensures n == 0 ==> ok && own.View() == old(own.View()) && shared.View() == old(shared.View())
    ensures n > 0 ==> var (b, passed, _) := Waited(old(own.View()), n, turns);
                      var (g, through, _) := Waited(old(shared.View()), n, globalTurns);
                      && own.View() == b
                      && shared.View() == (if passed then g else old(shared.View()))
                      && ok == (passed && through)
  {
    if n == 0 {
      return true;
    }
    var used;
    ok, used := WaitLoop(own, n, turns);
    if ok {
      ok, used := WaitLoop(shared, n, globalTurns);
    }
  }

  // ---------- many sessions, one global bucket ----------

  /** Where a session's wait is: not waiting for the global bucket, or past its own. */
  datatype Stage = Idle | AtGlobal(n: nat)

  /** `passed` counts what its own bucket granted, `output` what went through both; `slips` counts
      the grants of its own bucket that a nanosecond's rounding allowed. */
  datatype Sess = Sess(b: Bucket, started: int, paused: bool, stage: Stage, passed: nat, output: nat, slips: nat)

  datatype System = System(shared: Bucket, started: int, slips: nat, sess: seq<Sess>, now: int)

  datatype Event =
    | Attach(rate: int, burstSec: real)
    | SetPaused(i: nat, flag: bool)
    | OwnTake(i: nat, n: nat)
    | GlobalTake(i: nat)
    | Elapse(dt: nat)

  function NewBucket(rate: int, burstSec: real, now: int): Bucket {
    Bucket(rate, burstSec, CapacityOf(rate, burstSec), CapacityOf(rate, burstSec), now)
  }

  function Step(sys: System, e: Event): System {
    match e
    case Attach(rate, burstSec) =>
      sys.(sess := sys.sess + [Sess(NewBucket(rate, burstSec, sys.now), sys.now, false, Idle, 0, 0, 0)])
    case SetPaused(i, flag) => if i < |sys.sess| then sys.(sess := sys.sess[i := sys.sess[i].(paused := flag)]) else sys
    case OwnTake(i, n) =>
      if i < |sys.sess| && sys.sess[i].stage == Idle && !sys.sess[i].paused && n > 0 then
        sys.(sess := sys.sess[i := OwnTaken(sys.sess[i], n, sys.now)])
      else sys
    case GlobalTake(i) =>
      if i < |sys.sess| && sys.sess[i].stage.AtGlobal? then GlobalTaken(sys, i, sys.sess[i].stage.n) else sys
    case Elapse(dt) => sys.(now := sys.now + dt)
  }

  function OwnTaken(s: Sess, n: nat, now: int): Sess {
    var (b', w) := Taken(s.b, n, now);
    if w <= 0 then s.(b := b', stage := AtGlobal(n), passed := s.passed + n,
                      slips := s.slips + Slip(s.b, TakeAt(n, now)))
    else s.(b := b')
  }

  function GlobalTaken(sys: System, i: nat, n: nat): System
    requires i < |sys.sess|
  {
    var (g', w) := Taken(sys.shared, n, sys.now);
    var s := sys.sess[i];
    if w <= 0 then
      sys.(shared := g', slips := sys.slips + Slip(sys.shared, TakeAt(n, sys.now)),
           sess := sys.sess[i := s.(stage := Idle, output := s.output + n)])
    else sys.(shared := g')
  }

  function Execute(sys: System, es: seq<Event>): System
    decreases |es|
  {
    if es == [] then sys else Execute(Step(sys, es[0]), es[1..])
  }

  function TotalOutput(sess: seq<Sess>): nat {
    if sess == [] then 0 else sess[0].output + TotalOutput(sess[1..])
  }

  lemma {:induction false} TotalAppend(sess: seq<Sess>, s: Sess)
    ensures TotalOutput(sess + [s]) == TotalOutput(sess) + s.output
  {
    if sess == [] {
      assert [] + [s] == [s] && [s][1..] == [];
    } else {
      assert (sess + [s])[1..] == sess[1..] + [s];
      TotalAppend(sess[1..], s);
    }
  }

  lemma {:induction false} TotalUpdate(sess: seq<Sess>, i: nat, s: Sess)
    requires i < |sess|
    ensures TotalOutput(sess[i := s]) == TotalOutput(sess) - sess[i].output + s.output
  {
    if i == 0 {
      assert sess[0 := s][1..] == sess[1..];
    } else {
      assert sess[i := s][1..] == sess[1..][i - 1 := s];
      TotalUpdate(sess[1..], i - 1, s);
    }
  }

  /** What was granted, and what is left, was there at the start or has been earned since. */
  ghost predicate Covered(b: Bucket, initial: real, started: int, granted: nat, slips: nat, now: int) {
    && Valid(b) && started <= b.last <= now
    && (b.rate > 0 ==> granted as real + b.tokens <= initial + Credit(b.rate, b.last - started + slips))
  }

  ghost predicate SessOk(s: Sess, now: int) {
    && Covered(s.b, s.b.capacity, s.started, s.passed, s.slips, now)
    && s.passed == s.output + if s.stage.AtGlobal? then s.stage.n else 0
  }

  ghost predicate SystemOk(sys: System) {
    && (forall i :: 0 <= i < |sys.sess| ==> SessOk(sys.sess[i], sys.now))
    && Covered(sys.shared, 0.0, sys.started, TotalOutput(sys.sess), sys.slips, sys.now)
  }

  lemma CoveredLater(b: Bucket, initial: real, started: int, granted: nat, slips: nat, n: nat, now: int)
    requires Covered(b, initial, started, granted, slips, now)
    ensures var (b', w) := Taken(b, n, now);
            && b'.capacity == b.capacity
            && if w <= 0 then Covered(b', initial, started, granted + n, slips + Slip(b, TakeAt(n, now)), now)
               else Covered(b', initial, started, granted, slips, now)
  {
    if b.rate > 0 {
      var op := TakeAt(n, now);
      StepAccount(b, op, b.rate);
      CreditSum(b.rate, b.last - started + slips, now - b.last);
      CreditSum(b.rate, now - started + slips, Slip(b, op));
    }
  }

  lemma AttachOk(sys: System, rate: int, burstSec: real)
    requires SystemOk(sys)
    ensures SystemOk(Step(sys, Attach(rate, burstSec)))
  {
    var s := Sess(NewBucket(rate, burstSec, sys.now), sys.now, false, Idle, 0, 0, 0);
    TotalAppend(sys.sess, s);
    assert SessOk(s, sys.now);
  }

  lemma OwnTakeOk(sys: System, i: nat, n: nat)
    requires SystemOk(sys) && i < |sys.sess| && sys.sess[i].stage == Idle
    ensures SystemOk(sys.(sess := sys.sess[i := OwnTaken(sys.sess[i], n, sys.now)]))
  {
    var s := sys.sess[i];
    var t := OwnTaken(s, n, sys.now);
    assert SessOk(s, sys.now);
    assert SessOk(t, sys.now) by { CoveredLater(s.b, s.b.capacity, s.started, s.passed, s.slips, n, sys.now); }
    TotalUpdate(sys.sess, i, t);
  }

  lemma GlobalTakeOk(sys: System, i: nat)
    requires SystemOk(sys) && i < |sys.sess| && sys.sess[i].stage.AtGlobal?
    ensures SystemOk(GlobalTaken(sys, i, sys.sess[i].stage.n))
  {
    var s := sys.sess[i];
    var t := s.(stage := Idle, output := s.output + s.stage.n);
    assert SessOk(s, sys.now) && SessOk(t, sys.now);
    TotalUpdate(sys.sess, i, t);
    CoveredLater(sys.shared, 0.0, sys.started, TotalOutput(sys.sess), sys.slips, s.stage.n, sys.now);
  }

  lemma StepOk(sys: System, e: Event)
    requires SystemOk(sys)
    ensures SystemOk(Step(sys, e))
  {
    match e
    case Attach(rate, burstSec) => AttachOk(sys, rate, burstSec);
    case SetPaused(i, flag) => if i < |sys.sess| { TotalUpdate(sys.sess, i, sys.sess[i].(paused := flag)); }
    case OwnTake(i, n) => if i < |sys.sess| && sys.sess[i].stage == Idle { OwnTakeOk(sys, i, n); }
    case GlobalTake(i) => if i < |sys.sess| && sys.sess[i].stage.AtGlobal? { GlobalTakeOk(sys, i); }
    case Elapse(dt) =>
  }

  lemma {:induction false} RunOk(sys: System, es: seq<Event>)
    requires SystemOk(sys)
    ensures SystemOk(Execute(sys, es))
    decreases |es|
  {
    if es != [] {
      StepOk(sys, es[0]);
      RunOk(Step(sys, es[0]), es[1..]);
    }
  }

  /** A session that stays paused passes nothing more through its own bucket, whatever the others do; what
      was already past it may still go out. */
  lemma {:induction false} PausedStill(sys: System, es: seq<Event>, i: nat)
    requires i < |sys.sess| && sys.sess[i].paused && SetPaused(i, false) !in es
    ensures var sys' := Execute(sys, es);
            && i < |sys'.sess| && sys'.sess[i].paused && sys'.sess[i].b == sys.sess[i].b
            && sys'.sess[i].passed == sys.sess[i].passed
    decreases |es|
  {
    if es != [] {
      assert es[0] in es && forall e :: e in es[1..] ==> e in es;
      PausedStill(Step(sys, es[0]), es[1..], i);
    }
  }

  /** The limiter starts unlimited and is then given its global rate: its bucket starts empty. */
  function Boot(rate: int, burstSec: real, now: int): System {
    System(Configured(NewBucket(0, 0.0, now), rate, burstSec), now, 0, [], now)
  }

  /** In every run, each limited session has sent at most its burst and what its rate earned since it
      was attached, and all sessions together at most what the global rate earned (its bucket starts
      empty), each with one nanosecond more for every slip. */
  lemma TwoLevelBound(rate: int, burstSec: real, from: int, es: seq<Event>)
    ensures var sys := Execute(Boot(rate, burstSec, from), es);
            && (forall i :: 0 <= i < |sys.sess| && sys.sess[i].b.rate > 0 ==> WithinOwn(sys.sess[i], sys.now))
            && (sys.shared.rate > 0 ==>
                 TotalOutput(sys.sess) as real <= Credit(sys.shared.rate, sys.now - sys.started + sys.slips))
  {
    var sys := Execute(Boot(rate, burstSec, from), es);
    RunOk(Boot(rate, burstSec, from), es);
    forall i | 0 <= i < |sys.sess| && sys.sess[i].b.rate > 0 ensures WithinOwn(sys.sess[i], sys.now) {
      var s := sys.sess[i];
      assert SessOk(s, sys.now);
      CreditMonotone(s.b.rate, s.b.rate, s.b.last - s.started + s.slips, sys.now - s.started + s.slips);
    }
    if sys.shared.rate > 0 {
      CreditMonotone(sys.shared.rate, sys.shared.rate, sys.shared.last - sys.started + sys.slips,
                     sys.now - sys.started + sys.slips);
    }
  }

  ghost predicate WithinOwn(s: Sess, now: int) {
    s.output as real <= s.b.capacity + Credit(s.b.rate, now - s.started + s.slips)
  }

  // ---------- the reported rate ----------

  datatype Sample = Sample(at: int, tok: real)

  const WINDOW := 2000000000
  const MIN_SPAN: real := 0.2

  function Within(samples: seq<Sample>, cut: int): seq<Sample> {
    if samples == [] then []
    else (if samples[0].at > cut then [samples[0]] else []) + Within(samples[1..], cut)
  }

  function SumTok(samples: seq<Sample>): real {
    if samples == [] then 0.0 else SumTok(samples[..|samples| - 1]) + samples[|samples| - 1].tok
  }

  ghost predicate InOrder(samples: seq<Sample>) {
    forall i, j :: 0 <= i < j < |samples| ==> samples[i].at <= samples[j].at
  }

  lemma {:induction false} WithinAppend(samples: seq<Sample>, s: Sample, cut: int)
    ensures Within(samples + [s], cut) == Within(samples, cut) + if s.at > cut then [s] else []
  {
    if samples == [] {
      assert samples + [s] == [s] && [s][1..] == [];
    } else {
      assert (samples + [s])[1..] == samples[1..] + [s];
      WithinAppend(samples[1..], s, cut);
    }
  }

  lemma {:induction false} WithinTwice(samples: seq<Sample>, cut: int, cut': int)
    requires cut <= cut'
    ensures Within(Within(samples, cut), cut') == Within(samples, cut')
  {
    if samples != [] {
      var rest := Within(samples[1..], cut);
      WithinTwice(samples[1..], cut, cut');
      if samples[0].at > cut {
        assert ([samples[0]] + rest)[1..] == rest;
      } else {
        assert [] + rest == rest;
        assert [] + Within(samples[1..], cut') == Within(samples[1..], cut');
      }
    }
  }

  /** Dropping the old samples at the front of an ordered list is filtering it. */
  lemma {:induction false} DropIsWithin(samples: seq<Sample>, cut: int, k: nat)
    requires InOrder(samples) && k <= |samples|
    requires forall i :: 0 <= i < k ==> samples[i].at <= cut
    requires k < |samples| ==> samples[k].at > cut
    ensures samples[k..] == Within(samples, cut)
  {
    if samples != [] {
      if k > 0 {
        DropIsWithin(samples[1..], cut, k - 1);
        assert samples[1..][k - 1..] == samples[k..];
      } else {
        DropIsWithin(samples[1..], cut, 0);
        assert samples == [samples[0]] + samples[1..];
      }
    }
  }

  lemma {:induction false} WithinMembers(samples: seq<Sample>, cut: int)
    ensures forall i :: 0 <= i < |Within(samples, cut)| ==> Within(samples, cut)[i] in samples
  {
    if samples != [] {
      var rest := Within(samples[1..], cut);
      WithinMembers(samples[1..], cut);
      assert forall i :: 0 <= i < |rest| ==> rest[i] in samples[1..] && rest[i] in samples;
    }
  }

  lemma {:induction false} WithinOrdered(samples: seq<Sample>, cut: int)
    requires InOrder(samples)
    ensures InOrder(Within(samples, cut))
  {
    if samples != [] {
      var rest := Within(samples[1..], cut);
      WithinOrdered(samples[1..], cut);
      WithinMembers(samples[1..], cut);
      forall i | 0 <= i < |rest| ensures samples[0].at <= rest[i].at {
        assert rest[i] in samples[1..];
      }
    }
  }

  /** The trimming loop of `calcRateLocked`. */
  method TrimOld(samples: seq<Sample>, cut: int) returns (r: seq<Sample>)
    requires InOrder(samples)
    ensures r == Within(samples, cut)
  {
    var i := 0;
    while i < |samples|
      invariant i <= |samples|
      invariant forall j :: 0 <= j < i ==> samples[j].at <= cut
    {
      if samples[i].at > cut {
        break;
      }
      i := i + 1;
    }
    DropIsWithin(samples, cut, i);
    r := samples;
    if i > 0 {
      r := samples[i..];
    }
  }

  /** What is kept after a new sample: its window of the whole history. */
  method Trimmed(recent: seq<Sample>, newest: Sample, ghost history: seq<Sample>, ghost before: int)
    returns (kept: seq<Sample>)
    requires InOrder(history) && (history != [] ==> history[|history| - 1].at <= newest.at)
    requires before <= newest.at - WINDOW && recent == Within(history, before)
    ensures InOrder(history + [newest]) && kept == Within(history + [newest], newest.at - WINDOW) != []
  {
    Retrimmed(history, newest, before);
    kept := TrimOld(recent + [newest], newest.at - WINDOW);
  }

  method SumLoop(samples: seq<Sample>) returns (sum: real)
    ensures sum == SumTok(samples)
  {
    sum := 0.0;
    for k := 0 to |samples|
      invariant sum == SumTok(samples[..k])
    {
      assert samples[..k + 1][..k] == samples[..k];
      sum := sum + samples[k].tok;
    }
    assert samples[..|samples|] == samples;
  }

  /** The accounting half of a session's bucket.  `history` is everything ever accounted. */
  method RateOver(samples: seq<Sample>, now: int) returns (rate: real)
    requires samples != []
    ensures var span := (now - samples[0].at) as real / NS;
            rate == SumTok(samples) / (if span < MIN_SPAN then MIN_SPAN else span)
  {
    var sum := SumLoop(samples);
    var span := (now - samples[0].at) as real / NS;
    if span < MIN_SPAN {
      span := MIN_SPAN;
    }
    return sum / span;
  }

  class RateMeter {
    var sent: nat
    var recent: seq<Sample>
    ghost var history: seq<Sample>
    ghost var cut: int

    constructor ()
      ensures Valid() && history == [] && sent == 0
    {
      sent, recent, history, cut := 0, [], [], 0;
    }

    /** `recent` is what the last call left of the history. */
    ghost predicate Valid()
      reads this
    {
      InOrder(history) && recent == Within(history, cut)
        && (history != [] ==> cut == history[|history| - 1].at - WINDOW)
    }

    /** The rate is the sum over the samples of the last two seconds of the whole history, divided by
        their span or a fifth of a second. */
    method CalcRate(tok: real, now: int) returns (rate: real)
      requires Valid() && (history != [] ==> history[|history| - 1].at <= now)
      modifies this
      ensures Valid() && history == old(history) + [Sample(now, tok)] && sent == old(sent)
      ensures recent == Within(history, now - 2000000000) && recent != []
      ensures var span := (now - recent[0].at) as real / 1000000000.0;
              rate == SumTok(recent) / (if span < 0.2 then 0.2 else span)
    {
      ghost var before := if history == [] then now - WINDOW else cut;
      recent := Trimmed(recent, Sample(now, tok), history, before);
      history := history + [Sample(now, tok)];
      cut := now - WINDOW;
      rate := RateOver(recent, now);
    }

    /** `Account`, up to the averages. */
    method Account(tokens: nat, now: int) returns (rate: real)
      requires Valid() && (history != [] ==> history[|history| - 1].at <= now)
      modifies this
      ensures Valid() && sent == old(sent) + tokens
      ensures history == if tokens == 0 then old(history) else old(history) + [Sample(now, tokens as real)]
    {
      if tokens == 0 {
        return 0.0;
      }
      sent := sent + tokens;
      rate := CalcRate(tokens as real, now);
    }
  }

  lemma NewestStays(samples: seq<Sample>, cut: int)
    requires samples != [] && samples[|samples| - 1].at > cut
    ensures Within(samples, cut) != []
  {
    assert samples == samples[..|samples| - 1] + [samples[|samples| - 1]];
    WithinAppend(samples[..|samples| - 1], samples[|samples| - 1], cut);
  }

  /** Trimming what was kept of the history, with a new sample, is trimming all of it. */
  lemma Retrimmed(history: seq<Sample>, s: Sample, before: int)
    requires InOrder(history) && (history != [] ==> history[|history| - 1].at <= s.at) && before <= s.at - WINDOW
    ensures InOrder(history + [s]) && InOrder(Within(history, before) + [s])
    ensures Within(Within(history, before) + [s], s.at - WINDOW) == Within(history + [s], s.at - WINDOW) != []
  {
    Appended(history, s, before);
    WithinOrdered(history + [s], before);
    WithinTwice(history + [s], before, s.at - WINDOW);
    NewestStays(history + [s], s.at - WINDOW);
  }

  lemma Appended(history: seq<Sample>, s: Sample, cut: int)
    requires InOrder(history) && (history != [] ==> history[|history| - 1].at <= s.at) && s.at > cut
    ensures InOrder(history + [s]) && Within(history + [s], cut) == Within(history, cut) + [s]
  {
    WithinAppend(history, s, cut);
  }
}
