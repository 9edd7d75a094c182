/**
  The background renewer of an in-flight lease: its loop on a clock, from EnsureLeaseOwnership to
  the Release after Stop, and for which intervals, latencies, times to live and numbers of failed
  renewals the lease never lapses while the holder lives.  This is what module Registration asks
  of a holder.
*/
module LeaseRenewer {
  import opened Base
  import Registration
  import RegistrationInvariant

  // ---------------------------------------------------------------------------
  //  Continuity
  // ---------------------------------------------------------------------------

  /** One call on the lease.  The repository applies it somewhere between its beginning and its
      end; a renewal that is ok then sets the expiry to `effect` + ttl. */
  datatype Call = Call(begin: int, effect: int, end: int, ok: bool)

  predicate Timely(c: Call, latency: int) { c.begin <= c.effect <= c.end <= c.begin + latency }

  /** The first call secures the lease; each later one begins at most `pause` after the previous
      one ended.  No call takes longer than `latency`. */
  predicate Steady(log: seq<Call>, pause: int, latency: int) {
    && log != [] && log[0].ok
    && (forall i | 0 <= i < |log| :: Timely(log[i], latency))
    && (forall i, j | 0 <= i && j == i + 1 < |log| :: log[i].end <= log[j].begin <= log[i].end + pause)
  }

  /** The calls of a holder: EnsureLeaseOwnership, renewals, Release. */
  predicate Schedule(log: seq<Call>, pause: int, latency: int) { |log| >= 2 && Steady(log, pause, latency) }

  /** One of the m + 1 calls after call i is ok. */
  predicate Recovers(log: seq<Call>, i: nat, m: nat) {
    exists j | i < j <= i + m + 1 && j < |log| :: log[j].ok
  }

  /** At most m renewals in a row fail. */
  predicate Resilient(log: seq<Call>, m: nat) {
    forall i: nat | i + m + 1 < |log| - 1 :: Recovers(log, i, m)
  }

  /** The latest of the first n calls that had secured the lease by time t. */
  function LastBeat(log: seq<Call>, n: nat, t: int): (i: nat)
    requires 0 < n <= |log|
    ensures i < n && (i == 0 || (log[i].ok && log[i].effect <= t))
    ensures forall j | i < j < n && log[j].ok :: t < log[j].effect
  {
    if n == 1 || (log[n - 1].ok && log[n - 1].effect <= t) then n - 1 else LastBeat(log, n - 1, t)
  }

  /** When the lease was last secured, as of time t; the last call of the log releases it. */
  function BeatAt(log: seq<Call>, t: int): int
    requires |log| >= 2
  {
    log[LastBeat(log, |log| - 1, t)].effect
  }

  /** From the effect of the first call to that of Release the lease is unexpired at every
      instant. */
  ghost predicate NeverLapses(log: seq<Call>, ttl: int)
    requires |log| >= 2
  {
    forall t: int | log[0].effect <= t <= log[|log| - 1].effect :: t < BeatAt(log, t) + ttl
  }

  /** The longest stretch without a renewal, if m in a row fail. */
  function Stretch(pause: int, latency: int, m: nat): int { (m + 1) * (pause + latency) + latency }

  lemma {:induction false} GapBound(log: seq<Call>, pause: int, latency: int, i: nat, j: nat)
    requires Steady(log, pause, latency) && i <= j < |log|
    ensures log[j].end <= log[i].end + (j - i) * (pause + latency)
    decreases j
  {
    if i < j {
      GapBound(log, pause, latency, i, j - 1);
      assert Timely(log[j], latency) && log[j].begin <= log[j - 1].end + pause;
      assert (j - i) * (pause + latency) == (j - 1 - i) * (pause + latency) + (pause + latency);
    }
  }

  lemma EffectBound(log: seq<Call>, pause: int, latency: int, i: nat, j: nat, m: nat)
    requires Steady(log, pause, latency) && 0 <= pause && 0 <= latency && i <= j < |log| && j <= i + m + 1
    ensures log[j].effect <= log[i].effect + Stretch(pause, latency, m)
  {
    GapBound(log, pause, latency, i, j);
    assert Timely(log[i], latency) && Timely(log[j], latency);
    var d, k := pause + latency, m + 1 - (j - i);
    assert (m + 1) * d == (j - i) * d + k * d;
    assert 0 <= k * d;
  }

  lemma Continuous(log: seq<Call>, pause: int, latency: int, ttl: int, m: nat)
    requires Schedule(log, pause, latency) && 0 <= pause && 0 <= latency && Resilient(log, m)
    requires Stretch(pause, latency, m) < ttl
    ensures NeverLapses(log, ttl)
  {
    var last := |log| - 1;
    forall t: int | log[0].effect <= t <= log[last].effect ensures t < BeatAt(log, t) + ttl {
      var i := LastBeat(log, last, t);
      if i + m + 1 < last {
        assert Recovers(log, i, m);
        var j :| i < j <= i + m + 1 && j < |log| && log[j].ok;
        EffectBound(log, pause, latency, i, j, m);
      } else {
        EffectBound(log, pause, latency, i, last, m);
      }
    }
  }

  /** The first call applied at once and answered late, the others begun and applied as late as
      can be, all renewals failing. */
  function Worst(pause: int, latency: int, m: nat): seq<Call> {
    seq(m + 2, k requires 0 <= k < m + 2 =>
      if k == 0 then Call(0, 0, latency, true)
      else Call(k * (pause + latency), k * (pause + latency) + latency, k * (pause + latency) + latency, false))
  }

  lemma WorstIsSchedule(pause: int, latency: int, m: nat)
    requires 0 <= pause && 0 <= latency
    ensures Schedule(Worst(pause, latency, m), pause, latency) && Resilient(Worst(pause, latency, m), m)
  {
    var log, d := Worst(pause, latency, m), pause + latency;
    forall i, j | 0 <= i && j == i + 1 < |log| ensures log[i].end <= log[j].begin <= log[i].end + pause {
      assert j * d == i * d + d;
    }
  }

  lemma {:induction false} WorstBeat(pause: int, latency: int, m: nat, n: nat, t: int)
    requires 0 < n <= m + 1
    ensures LastBeat(Worst(pause, latency, m), n, t) == 0
    decreases n
  {
    if n > 1 { WorstBeat(pause, latency, m, n - 1, t); }
  }

  lemma SlowRepliesLapse(pause: int, latency: int, ttl: int, m: nat)
    requires 0 <= pause && 0 <= latency && ttl <= Stretch(pause, latency, m)
    ensures Schedule(Worst(pause, latency, m), pause, latency) && Resilient(Worst(pause, latency, m), m)
    ensures !NeverLapses(Worst(pause, latency, m), ttl)
  {
    WorstIsSchedule(pause, latency, m);
    var log, t := Worst(pause, latency, m), Stretch(pause, latency, m);
    WorstBeat(pause, latency, m, m + 1, t);
    assert 0 <= (m + 1) * (pause + latency);
    assert BeatAt(log, t) == 0 && log[0].effect <= t <= log[|log| - 1].effect;
    assert !(t < BeatAt(log, t) + ttl);
  }

  /** Under every schedule with at most m failed renewals in a row the lease is continuous, from
      the effect of the first call to that of Release, if and only if the longest stretch between
      two renewals stays below the time to live. */
  lemma ToleranceIff(pause: int, latency: int, ttl: int, m: nat)
    requires 0 <= pause && 0 <= latency
    ensures (forall log: seq<Call> | Schedule(log, pause, latency) && Resilient(log, m) :: NeverLapses(log, ttl)) <==>
      (m + 1) * (pause + latency) + latency < ttl
  {
    if Stretch(pause, latency, m) < ttl {
      forall log: seq<Call> | Schedule(log, pause, latency) && Resilient(log, m) ensures NeverLapses(log, ttl) {
        Continuous(log, pause, latency, ttl, m);
      }
    } else {
      SlowRepliesLapse(pause, latency, ttl, m);
    }
  }

  /** The configuration check (interval below ttl) does not imply continuity, not even if no
      renewal fails and interval and latency together are below the time to live. */
  lemma ConfigCheckNotEnough()
    ensures exists interval: int, latency: int, ttl: int ::
      && 0 < interval < ttl && interval + latency < ttl
      && var log := Worst(interval, latency, 0);
         Schedule(log, interval, latency) && Resilient(log, 0) && !NeverLapses(log, ttl)
  {
    SlowRepliesLapse(20, 20, 60, 0);
    assert 0 < 20 < 60;
  }

  // ---------------------------------------------------------------------------
  //  The loop
  // ---------------------------------------------------------------------------

  const DEFAULT_MILLIS: int := 1000

  /** How one call goes: how late it begins, how long until it is applied, how long from then
      until it is answered, and whether it succeeds. */
  datatype Pace = Pace(lag: int, toEffect: int, toEnd: int, ok: bool)

  predicate InPace(q: Pace, slack: int, latency: int) {
    0 <= q.lag <= slack && 0 <= q.toEffect && 0 <= q.toEnd && q.toEffect + q.toEnd <= latency
  }

  function CallAt(begin: int, q: Pace): Call {
    Call(begin, begin + q.toEffect, begin + q.toEffect + q.toEnd, q.ok)
  }

  lemma SteadyOn(log: seq<Call>, pause: int, latency: int, c: Call)
    requires Steady(log, pause, latency) && Timely(c, latency)
    requires log[|log| - 1].end <= c.begin <= log[|log| - 1].end + pause
    ensures Steady(log + [c], pause, latency)
  {
    var more := log + [c];
    forall i, j | 0 <= i && j == i + 1 < |more| ensures more[i].end <= more[j].begin <= more[i].end + pause {
      if j < |log| { assert log[i].end <= log[j].begin <= log[i].end + pause; }
    }
  }

  /** The renewals after the first call: none begins after the stop, and each goes as it must. */
  predicate Follows(log: seq<Call>, first: Call, stopAt: int, pace: nat -> Pace) {
    && log != [] && log[0] == first
    && forall k | 0 < k < |log| :: log[k].begin < stopAt && log[k].ok == pace(k - 1).ok
  }

  lemma FollowsOn(log: seq<Call>, first: Call, stopAt: int, pace: nat -> Pace, c: Call)
    requires Follows(log, first, stopAt, pace) && c.begin < stopAt && c.ok == pace(|log| - 1).ok
    ensures Follows(log + [c], first, stopAt, pace)
  {
    var more := log + [c];
    forall k | 0 < k < |more| ensures more[k].begin < stopAt && more[k].ok == pace(k - 1).ok {
      if k < |log| { assert more[k] == log[k]; }
    }
  }

  class Renewer {
    const interval: int
    const ttl: int
    var running: bool
    /** last_error_ holds an error. */
    var failed: bool
    var attempts: nat

    /** `enabled`, and whether the thread could be created. */
    constructor (enabled: bool, spawned: bool, interval: int, ttl: int)
      ensures running == (enabled && spawned) && attempts == 0
      ensures failed == (enabled && !spawned)
      ensures enabled ==> this.interval > 0 && this.ttl > 0
      ensures interval > 0 && ttl > 0 ==> this.interval == interval && this.ttl == ttl
    {
      this.interval := if enabled && interval <= 0 then DEFAULT_MILLIS else interval;
      this.ttl := if enabled && ttl <= 0 then DEFAULT_MILLIS else ttl;
      running := enabled && spawned;
      failed := enabled && !spawned;
      attempts := 0;
    }

    /** Wait for one interval, renew, remember how it went, until the stop flag is seen; `first`
        is the call that secured the lease, the flag is set at time `stopAt`, and `pace(k)` says
        how the k-th renewal goes.  The log of calls is steady, no renewal begins after the stop,
        and failed() tells how the latest one went. */
    method Loop(first: Call, stopAt: int, pace: nat -> Pace, slack: int, latency: int)
      returns (log: seq<Call>, now: int)
      requires running && !failed && attempts == 0 && interval > 0 && 0 <= slack
      requires first.ok && Timely(first, latency) && forall k: nat :: InPace(pace(k), slack, latency)
      modifies this
      ensures !running && |log| == attempts + 1 && Steady(log, interval + slack, latency)
      ensures stopAt <= now && log[attempts].end <= now <= log[attempts].end + interval + slack
      ensures Follows(log, first, stopAt, pace)
      ensures failed <==> attempts > 0 && !log[attempts].ok
    {
      log, now := [first], first.end;
      while now < stopAt
        invariant |log| == attempts + 1 && Steady(log, interval + slack, latency)
        invariant now == log[attempts].end && Follows(log, first, stopAt, pace)
        invariant failed <==> attempts > 0 && !log[attempts].ok
        decreases stopAt - now
      {
        var q := pace(attempts);
        assert InPace(q, slack, latency);
        var wake := now + interval + q.lag;
        if stopAt <= wake {
          now := stopAt;
          break;
        }
        var renewal := CallAt(wake, q);
        SteadyOn(log, interval + slack, latency, renewal);
        FollowsOn(log, first, stopAt, pace, renewal);
        log := log + [renewal];
        failed := !q.ok;
        attempts := attempts + 1;
        now := renewal.end;
      }
      running := false;
    }

    /** From the call that secured the lease to its release: the loop, Stop, Release.  If at most
        m renewals in a row fail and the longest stretch is below the time to live, the lease does
        not lapse in between. */
    method Hold(first: Call, stopAt: int, pace: nat -> Pace, release: Pace, slack: int, latency: int)
      returns (log: seq<Call>)
      requires running && !failed && attempts == 0 && interval > 0 && 0 <= slack && 0 <= latency
      requires first.ok && Timely(first, latency) && forall k: nat :: InPace(pace(k), slack, latency)
      requires InPace(release, slack, latency)
      modifies this
      ensures Schedule(log, interval + slack, latency) && log[0] == first && |log| == attempts + 2
      ensures stopAt <= log[|log| - 1].begin
      ensures forall m: nat | Resilient(log, m) && Stretch(interval + slack, latency, m) < ttl :: NeverLapses(log, ttl)
    {
      var now;
      log, now := Loop(first, stopAt, pace, slack, latency);
      SteadyOn(log, interval + slack, latency, CallAt(now, release));
      log := log + [CallAt(now, release)];
      forall m: nat | Resilient(log, m) && Stretch(interval + slack, latency, m) < ttl ensures NeverLapses(log, ttl) {
        Continuous(log, interval + slack, latency, ttl, m);
      }
    }
  }

  // ---------------------------------------------------------------------------
  //  What the protocol relies on
  // ---------------------------------------------------------------------------

  /** A holder whose lease calls never lapse meets the deployment's promise about it at every
      instant up to its Release, and the collector cannot claim its source. */
  lemma HolderKeepsLease(c: Registration.Config, log: seq<Call>, now: int, s: Registration.Slot, p: nat, t: int)
    requires |log| >= 2 && NeverLapses(log, c.ttl) && log[0].effect <= t <= log[|log| - 1].effect
    requires RegistrationInvariant.Inv(c, now, s) && now <= t
    requires p in s.procs && Registration.Critical(s.procs[p]) && BeatAt(log, t) <= s.procs[p].beat
    ensures t < s.procs[p].beat + c.ttl
    ensures forall start :: !Registration.Enabled(c, t, s, Registration.GcClaim(start))
  {
    assert RegistrationInvariant.ProcInv(c, now, s, p, s.procs[p]);
  }
}
