/**
  What the environment presents to a create request, call by call, and how the request's log draws
  on it.  In an environment in which nobody else acts, the log is that of module SoloCreate.
*/
module Moments {
  import opened Base
  import opened Registration
  import opened CreateMetadata
  import opened SoloCreate

  /** What the environment presents at one port call: the clock, the shared state, what the
      renewer has noted (its flag and its latest renewal) and the reply. */
  datatype Moment = Moment(now: int, slot: Slot, lost: bool, beat: int, reply: Reply)

  /** Polls of WaitForExistingClaim: at 0, 50, ..., 2000 ms. */
  const POLLS: nat := 41

  /** The turn happened at moment m: its clock, its reply, and its shared state with only the
      request's own entry put in; before the first call there is no renewer. */
  predicate Meets(p: nat, m: Moment, t: Turn) {
    && Present(p, t) && t.now == m.now && t.reply == m.reply
    && t.before == Put(m.slot, p, t.before.procs[p])
    && (!t.before.procs[p].pc.Check? ==> t.before.procs[p].lost == m.lost && t.before.procs[p].beat == m.beat)
  }

  predicate Waits(p: nat, t: Turn)
    requires Present(p, t)
  {
    t.before.procs[p].pc.Wait?
  }

  /** The wait ran out of time at moment m. */
  predicate TimedOut(p: nat, m: Moment, t: Turn) {
    Present(p, t) && Waits(p, t) && Meets(p, m.(reply := Fault), t)
  }

  predicate Drew(p: nat, env: nat -> Moment, k: nat, t: Turn) {
    Meets(p, env(k), t) || TimedOut(p, env(k), t)
  }

  /** Turn k of the log is drawn on moment `at`; outside the wait no moment is skipped. */
  predicate DrewAt(p: nat, env: nat -> Moment, at: nat, k: nat, t: Turn) {
    Drew(p, env, at, t) && (Waits(p, t) || at == k)
  }

  predicate Earlier(a: nat, b: nat) { a < b }

  /** Turn k happened at moment used[k]; moments before `clock` are taken in increasing order. */
  ghost predicate Drawn(p: nat, env: nat -> Moment, log: seq<Turn>, used: seq<nat>, clock: nat) {
    && |used| == |log|
    && (forall k {:trigger DrewAt(p, env, used[k], k, log[k])} | 0 <= k < |log| :: DrewAt(p, env, used[k], k, log[k]))
    && (forall k {:trigger Earlier(used[k], clock)} | 0 <= k < |log| :: Earlier(used[k], clock))
    && (forall i, j {:trigger Earlier(used[i], used[j])} | 0 <= i < j < |log| :: Earlier(used[i], used[j]))
  }

  lemma DrawnOn(p: nat, env: nat -> Moment, log: seq<Turn>, used: seq<nat>, clock: nat, t: Turn)
    requires Drawn(p, env, log, used, clock) && DrewAt(p, env, clock, |log|, t)
    ensures Drawn(p, env, log + [t], used + [clock], clock + 1)
  {
    var l, u := log + [t], used + [clock];
    forall k | 0 <= k < |l| ensures DrewAt(p, env, u[k], k, l[k]) && Earlier(u[k], clock + 1) {
      if k < |log| { assert DrewAt(p, env, used[k], k, log[k]) && Earlier(used[k], clock); }
    }
    forall i, j | 0 <= i < j < |l| ensures Earlier(u[i], u[j]) {
      if j < |log| { assert Earlier(used[i], used[j]); } else { assert Earlier(used[i], clock); }
    }
  }

  /** A moment nobody draws on. */
  lemma DrawnLater(p: nat, env: nat -> Moment, log: seq<Turn>, used: seq<nat>, clock: nat)
    requires Drawn(p, env, log, used, clock)
    ensures Drawn(p, env, log, used, clock + 1)
  {
    forall k | 0 <= k < |log| ensures Earlier(used[k], clock + 1) { assert Earlier(used[k], clock); }
  }

  /** A read at this moment finds a ready record. */
  predicate Shows(m: Moment) { m.reply == Answer && IsReady(m.slot) }

  /** None of the n moments from the given one on shows a record. */
  ghost predicate Silent(env: nat -> Moment, from: nat, n: nat) { forall k | from <= k < from + n :: !Shows(env(k)) }

  /** The n moments from the given one on are polled: the first that shows a record decides. */
  ghost predicate Awaited(env: nat -> Moment, from: nat, n: nat, o: Outcome) {
    || (o == Failed && Silent(env, from, n))
    || exists k: nat | k < n ::
         Silent(env, from, k) && Shows(env(from + k)) && o == Existing(env(from + k).slot.row.id)
  }

  lemma SilentOn(env: nat -> Moment, from: nat, n: nat)
    requires Silent(env, from, n) && !Shows(env(from + n))
    ensures Silent(env, from, n + 1)
  {}

  lemma ShownAt(env: nat -> Moment, from: nat, k: nat, n: nat)
    requires k < n && Silent(env, from, k) && Shows(env(from + k))
    ensures Awaited(env, from, n, Existing(env(from + k).slot.row.id))
  {}

  /** What the claim at moment 1 decides.  If it is won the protocol goes on. */
  ghost predicate Contended(env: nat -> Moment, o: Outcome) {
    if env(1).reply != Answer then o == Failed
    else if IsReady(env(1).slot) then o == Existing(env(1).slot.row.id)
    else env(1).slot.row.Row? ==> Awaited(env, 2, POLLS, o)
  }

  /** The first read decides, and if it finds no record the claim. */
  ghost predicate Foretold(env: nat -> Moment, o: Outcome) {
    if Shows(env(0)) then o == Existing(env(0).slot.row.id) else Contended(env, o)
  }

  // ---------------------------------------------------------------------------
  //  Nobody else acts
  // ---------------------------------------------------------------------------

  datatype Call = Call(now: int, reply: Reply)

  /** The shared state after these calls of request p, if nobody else acts. */
  function Later(c: Config, s: Slot, p: nat, calls: seq<Call>): (t: Slot)
    requires p in s.procs
    ensures p in t.procs
    decreases |calls|
  {
    if calls == [] then s
    else
      var n := |calls| - 1;
      Step(c, calls[n].now, Later(c, s, p, calls[..n]), p, calls[n].reply)
  }

  function Calls(env: nat -> Moment, k: nat): seq<Call> { seq(k, n requires 0 <= n < k => Call(env(n).now, env(n).reply)) }

  /** The shared state after k calls of request p at the moments of env, if nobody else acts. */
  ghost function Evolved(c: Config, env: nat -> Moment, p: nat, i: nat, k: nat): (s: Slot)
    ensures p in s.procs
  {
    Later(c, Put(env(0).slot, p, Newcomer(i)), p, Calls(env, k))
  }

  lemma EvolvedNext(c: Config, env: nat -> Moment, p: nat, i: nat, k: nat)
    ensures Evolved(c, env, p, i, k + 1) == Step(c, env(k).now, Evolved(c, env, p, i, k), p, env(k).reply)
  {
    assert Calls(env, k + 1)[..k] == Calls(env, k);
  }

  /** The moment presents s, the request's own entry included. */
  predicate Presents(s: Slot, p: nat, m: Moment)
    requires p in s.procs
  {
    Put(m.slot, p, s.procs[p]) == s && m.lost == s.procs[p].lost && m.beat == s.procs[p].beat
  }

  /** Each moment presents what the request's own calls have left. */
  ghost predicate AloneAt(c: Config, env: nat -> Moment, p: nat, i: nat, k: nat) {
    var s := Evolved(c, env, p, i, k);
    && Presents(s, p, env(k))
    && env(k).now <= env(k + 1).now
    && (env(k).reply == Answer || (env(k).reply == Fault && !CleansUp(s.procs[p].pc)))
  }

  ghost predicate Alone(c: Config, env: nat -> Moment, p: nat, i: nat) {
    && Open(env(0).now, Evolved(c, env, p, i, 0), p, i)
    && forall k: nat :: AloneAt(c, env, p, i, k)
  }

  /** A turn at a moment that presents s meets s. */
  lemma MeetsLeft(s: Slot, p: nat, m: Moment, t: Turn)
    requires p in s.procs && Presents(s, p, m) && Meets(p, m, t)
    requires Tended(s.procs[p], t.before.procs[p]) && (t.before.procs[p].pc.Check? ==> t.before.procs[p] == s.procs[p])
    ensures t.before == s
  {
    assert t.before.procs[p] == s.procs[p];
  }

  lemma OneMore(c: Config, p: nat, log: seq<Turn>)
    requires |log| > 1 && Chain(p, log) && FromStart(p, log) && Undisturbed(c, p, log[..|log| - 1])
    requires Present(p, log[|log| - 2]) && log[|log| - 1].before == Left(c, p, log[|log| - 2])
    requires log[|log| - 2].now <= log[|log| - 1].now && Mannered(p, log[|log| - 1])
    ensures Undisturbed(c, p, log)
  {
    var head := log[..|log| - 1];
    forall k | 0 <= k < |log| ensures Present(p, log[k]) && Mannered(p, log[k]) {
      if k < |head| { assert Present(p, head[k]) && Mannered(p, head[k]); }
    }
    forall a, b | 0 <= a && b == a + 1 < |log|
      ensures log[b].before == Left(c, p, log[a]) && log[a].now <= log[b].now
    {
      if b < |head| { assert head[b].before == Left(c, p, head[a]) && head[a].now <= head[b].now; }
    }
  }

  lemma FirstAlone(c: Config, env: nat -> Moment, p: nat, i: nat, log: seq<Turn>, used: seq<nat>, clock: nat)
    requires Chain(p, log) && FromStart(p, log) && Drawn(p, env, log, used, clock) && Alone(c, env, p, i) && |log| == 1
    requires log[0].before.procs[p] == Newcomer(i)
    ensures Undisturbed(c, p, log) && log[0].before == Evolved(c, env, p, i, 0) && log[0].now == env(0).now
    ensures log[0].reply == env(0).reply
  {
    assert AloneAt(c, env, p, i, 0) && DrewAt(p, env, used[0], 0, log[0]);
    MeetsLeft(Evolved(c, env, p, i, 0), p, env(0), log[0]);
  }

  lemma NotWaiting(c: Config, p: nat, log: seq<Turn>, i: nat)
    requires |log| > 1 && Chain(p, log) && FromStart(p, log) && Undisturbed(c, p, log[..|log| - 1])
    requires Open(log[0].now, log[0].before, p, i)
    ensures Present(p, log[|log| - 1]) && !Waits(p, log[|log| - 1]) && !log[|log| - 1].before.procs[p].pc.Check?
    ensures Tended(log[|log| - 2].after, log[|log| - 1].before.procs[p])
  {
    var n := |log| - 1;
    OnCourse(c, p, log[..n], i);
    assert Resumes(p, log[n - 1], log[n]);
    assert Genuine(p, log[n - 1]) && Genuine(p, log[n]);
  }

  lemma DrawnHead(p: nat, env: nat -> Moment, log: seq<Turn>, used: seq<nat>, clock: nat)
    requires Drawn(p, env, log, used, clock) && log != []
    ensures Drawn(p, env, log[..|log| - 1], used[..|log| - 1], clock)
  {
    var l, u := log[..|log| - 1], used[..|log| - 1];
    forall k | 0 <= k < |l| ensures DrewAt(p, env, u[k], k, l[k]) && Earlier(u[k], clock) {
      assert DrewAt(p, env, used[k], k, log[k]) && Earlier(used[k], clock);
    }
    forall i, j | 0 <= i < j < |l| ensures Earlier(u[i], u[j]) { assert Earlier(used[i], used[j]); }
  }

  lemma EvolvedOn(c: Config, env: nat -> Moment, p: nat, i: nat, k: nat, t: Turn)
    requires Genuine(p, t) && t.before == Evolved(c, env, p, i, k) && t.now == env(k).now && t.reply == env(k).reply
    ensures Evolved(c, env, p, i, k + 1) == Left(c, p, t) && Left(c, p, t).procs[p] == t.after
  {
    EvolvedNext(c, env, p, i, k);
    InstStays(c, p, t);
  }

  /** The log so far is that of a request with which nobody interferes. */
  ghost predicate Lonely(c: Config, env: nat -> Moment, p: nat, i: nat, log: seq<Turn>) {
    var n := |log| - 1;
    && log != [] && Undisturbed(c, p, log) && Open(log[0].now, log[0].before, p, i)
    && log[n].before == Evolved(c, env, p, i, n) && log[n].now == env(n).now && log[n].reply == env(n).reply
  }

  /** Outside the wait turn n is drawn on moment n. */
  lemma NextDraws(p: nat, env: nat -> Moment, log: seq<Turn>, used: seq<nat>, clock: nat, n: nat)
    requires Drawn(p, env, log, used, clock) && n < |log| && Present(p, log[n]) && !Waits(p, log[n])
    ensures Meets(p, env(n), log[n])
  {
    assert DrewAt(p, env, used[n], n, log[n]);
  }

  lemma NextLeft(c: Config, env: nat -> Moment, p: nat, i: nat, log: seq<Turn>)
    requires Chain(p, log) && |log| > 1 && Lonely(c, env, p, i, log[..|log| - 1])
    ensures Present(p, log[|log| - 2]) && Evolved(c, env, p, i, |log| - 1) == Left(c, p, log[|log| - 2])
    ensures Evolved(c, env, p, i, |log| - 1).procs[p] == log[|log| - 2].after
  {
    assert Genuine(p, log[|log| - 2]);
    EvolvedOn(c, env, p, i, |log| - 2, log[|log| - 2]);
  }

  lemma KeepsManners(c: Config, env: nat -> Moment, p: nat, i: nat, n: nat, t: Turn)
    requires AloneAt(c, env, p, i, n) && Meets(p, env(n), t) && t.before == Evolved(c, env, p, i, n)
    ensures Mannered(p, t)
  {}

  /** The next call finds what the previous one left, and keeps its manners. */
  lemma NextMeets(c: Config, env: nat -> Moment, p: nat, i: nat, log: seq<Turn>, used: seq<nat>, clock: nat)
    requires Chain(p, log) && FromStart(p, log) && Drawn(p, env, log, used, clock) && Alone(c, env, p, i) && |log| > 1
    requires Lonely(c, env, p, i, log[..|log| - 1])
    ensures var n := |log| - 1;
      && Present(p, log[n - 1]) && Present(p, log[n]) && Meets(p, env(n), log[n]) && Mannered(p, log[n])
      && log[n].before == Evolved(c, env, p, i, n) == Left(c, p, log[n - 1])
  {
    var n := |log| - 1;
    NotWaiting(c, p, log, i);
    NextDraws(p, env, log, used, clock, n);
    NextLeft(c, env, p, i, log);
    assert AloneAt(c, env, p, i, n);
    MeetsLeft(Evolved(c, env, p, i, n), p, env(n), log[n]);
    KeepsManners(c, env, p, i, n, log[n]);
  }

  lemma NextLonely(c: Config, env: nat -> Moment, p: nat, i: nat, log: seq<Turn>, used: seq<nat>, clock: nat)
    requires Chain(p, log) && FromStart(p, log) && Drawn(p, env, log, used, clock) && Alone(c, env, p, i) && |log| > 1
    requires Lonely(c, env, p, i, log[..|log| - 1])
    ensures Lonely(c, env, p, i, log)
  {
    var n := |log| - 1;
    NextMeets(c, env, p, i, log, used, clock);
    assert AloneAt(c, env, p, i, n - 1);
    OneMore(c, p, log);
  }

  /** If nobody else acts, nobody else has acted in the log. */
  lemma {:induction false} AloneUndisturbed(c: Config, env: nat -> Moment, p: nat, i: nat,
                                            log: seq<Turn>, used: seq<nat>, clock: nat)
    requires Chain(p, log) && FromStart(p, log) && Drawn(p, env, log, used, clock) && Alone(c, env, p, i)
    requires log[0].before.procs[p] == Newcomer(i)
    ensures Lonely(c, env, p, i, log)
    decreases |log|
  {
    if |log| == 1 {
      FirstAlone(c, env, p, i, log, used, clock);
    } else {
      Shorter(p, log);
      DrawnHead(p, env, log, used, clock);
      AloneUndisturbed(c, env, p, i, log[..|log| - 1], used[..|log| - 1], clock);
      NextLonely(c, env, p, i, log, used, clock);
    }
  }

  /** If besides every call answers, the log is smooth. */
  lemma {:induction false} AloneSmooth(c: Config, env: nat -> Moment, p: nat, i: nat, log: seq<Turn>, used: seq<nat>, clock: nat)
    requires Chain(p, log) && FromStart(p, log) && Drawn(p, env, log, used, clock) && Alone(c, env, p, i)
    requires log[0].before.procs[p] == Newcomer(i) && forall k: nat :: env(k).reply == Answer
    ensures AllPresent(p, log) && Smooth(p, log)
    decreases |log|
  {
    AloneUndisturbed(c, env, p, i, log, used, clock);
    SmoothSnoc(p, log);
    if |log| > 1 {
      Shorter(p, log);
      DrawnHead(p, env, log, used, clock);
      AloneSmooth(c, env, p, i, log[..|log| - 1], used[..|log| - 1], clock);
    } else {
      assert log[..0] == [];
    }
  }

  /** If nobody else acts the execution is undisturbed, and creates if every call answers. */
  lemma AloneCreates(c: Config, env: nat -> Moment, p: nat, i: nat, log: seq<Turn>, used: seq<nat>, clock: nat)
    requires Execution(p, log) && Drawn(p, env, log, used, clock) && log[0].before.procs[p] == Newcomer(i)
    requires Alone(c, env, p, i)
    ensures Undisturbed(c, p, log) && Open(log[0].now, log[0].before, p, i)
    ensures (forall k: nat :: env(k).reply == Answer) ==> log[|log| - 1].after.outcome == Created(p)
  {
    AloneUndisturbed(c, env, p, i, log, used, clock);
    if forall k: nat :: env(k).reply == Answer {
      AloneSmooth(c, env, p, i, log, used, clock);
      CreatesOrLeavesNoTrace(c, p, log, i);
    }
  }

  /** Whatever the deployment: a request that is alone is undisturbed, and creates if every call
      answers. */
  ghost predicate SolitudeLaw(env: nat -> Moment, p: nat, i: nat, log: seq<Turn>, o: Outcome) {
    forall c: Config | Alone(c, env, p, i) ::
      && log != [] && Undisturbed(c, p, log) && Open(log[0].now, log[0].before, p, i)
      && ((forall k: nat :: env(k).reply == Answer) ==> o == Created(p))
  }

  lemma SolitudeHolds(env: nat -> Moment, p: nat, i: nat, log: seq<Turn>, used: seq<nat>, clock: nat)
    requires Execution(p, log) && Drawn(p, env, log, used, clock) && log[0].before.procs[p] == Newcomer(i)
    ensures SolitudeLaw(env, p, i, log, log[|log| - 1].after.outcome)
  {
    forall c: Config | Alone(c, env, p, i)
      ensures Undisturbed(c, p, log) && Open(log[0].now, log[0].before, p, i)
      ensures (forall k: nat :: env(k).reply == Answer) ==> log[|log| - 1].after.outcome == Created(p)
    {
      AloneCreates(c, env, p, i, log, used, clock);
    }
  }

  // ---------------------------------------------------------------------------
  //  Such environments exist
  // ---------------------------------------------------------------------------

  function Answers(now: int, k: nat): seq<Call> { seq(k, n requires 0 <= n < k => Call(now, Answer)) }

  function CalmMoment(c: Config, now: int, s: Slot, p: nat, k: nat): Moment
    requires p in s.procs
  {
    var t := Later(c, s, p, Answers(now, k));
    Moment(now, t, t.procs[p].lost, t.procs[p].beat, Answer)
  }

  /** In every open state a request can be alone, with every call answered. */
  lemma CanBeAlone(c: Config, now: int, s: Slot, p: nat, i: nat) returns (env: nat -> Moment)
    requires Open(now, s, p, i)
    ensures Alone(c, env, p, i) && env(0).slot == s && forall k: nat :: env(k).reply == Answer
  {
    env := (k: nat) => CalmMoment(c, now, s, p, k);
    assert Answers(now, 0) == [] && Calls(env, 0) == [];
    assert Put(s, p, Newcomer(i)) == s by { assert s.procs[p := s.procs[p]] == s.procs; }
    forall k: nat ensures AloneAt(c, env, p, i, k) {
      assert Calls(env, k) == Answers(now, k);
      var t := Evolved(c, env, p, i, k);
      assert t.procs[p := t.procs[p]] == t.procs;
    }
  }
}
