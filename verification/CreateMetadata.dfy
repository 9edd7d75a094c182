/**
  One create request under arbitrary interference: the sequences of port calls that the protocol
  of module Registration allows it, whatever others do to the shared state in between.  Calls
  happen in one fixed order, and every path out accounts for the claim and the lease.
*/
module CreateMetadata {
  import opened Base
  import opened Registration

  /** One port call of request p: the slot it met, the reply it got, its own state after it. */
  datatype Turn = Turn(now: int, before: Slot, reply: Reply, after: Proc)

  predicate Genuine(p: nat, t: Turn) {
    Present(p, t) && !Ended(t.before.procs[p]) && t.after == After(t.now, t.before, p, t.before.procs[p], t.reply)
  }

  predicate Present(p: nat, t: Turn) { p in t.before.procs }

  /** y is x after its renewer may have run: the flag and the time of the latest renewal. */
  predicate Tended(x: Proc, y: Proc) { y == x.(lost := y.lost, beat := y.beat) }

  /** Between two calls others may change everything except the request's own state; only its
      renewer touches that. */
  predicate Resumes(p: nat, t: Turn, u: Turn)
    requires Present(p, t) && Present(p, u)
  {
    Tended(t.after, u.before.procs[p])
  }

  /** Each turn takes the request up where the previous one left it. */
  predicate Connected(p: nat, log: seq<Turn>) {
    && (forall k | 0 <= k < |log| :: Present(p, log[k]))
    && (forall i, j {:trigger Resumes(p, log[i], log[j])} | 0 <= i && j == i + 1 < |log| :: Resumes(p, log[i], log[j]))
  }

  /** Consecutive port calls of request p. */
  ghost predicate Chain(p: nat, log: seq<Turn>) {
    && Connected(p, log)
    && (forall k {:trigger Genuine(p, log[k])} | 0 <= k < |log| :: Genuine(p, log[k]))
  }

  /** The log begins with a request that has just arrived. */
  predicate FromStart(p: nat, log: seq<Turn>) {
    log != [] && Present(p, log[0]) && log[0].before.procs[p] == Newcomer(log[0].before.procs[p].inst)
  }

  /** A complete execution: starts with a new request, ends when it returns. */
  ghost predicate Execution(p: nat, log: seq<Turn>) {
    && Chain(p, log) && FromStart(p, log)
    && Present(p, log[|log| - 1]) && log[|log| - 1].after.pc == Done
  }

  // ---------------------------------------------------------------------------
  //  Control flow and order of calls
  // ---------------------------------------------------------------------------

  /** A call that was answered by h takes the code from a to b: the projection of a step to
      what the code depends on. */
  predicate Flow(a: Proc, p: nat, h: Heard, b: Proc) {
    && b.inst == a.inst && b.pc == NextPc(a, h) && b.outcome == Told(a, p, h)
    && b.guarded == NextGuarded(a, h) && b.found == NextFound(a, h)
  }

  function HeardAt(p: nat, t: Turn): Heard
    requires p in t.before.procs
  {
    Hear(t.now, t.before, p, t.before.procs[p], t.reply)
  }

  /** Records are heard where one is read, locations where the location is. */
  predicate Plausible(pc: Pc, h: Heard) {
    && (h.Record? ==> pc.Check? || pc.Claim? || pc.Wait? || pc.Reread? || pc.RbCheck?)
    && (h.Dangling? ==> pc.Find?)
    && (h.Won? ==> pc.Claim?)
    && (pc.Claim? ==> h.Record? || h.Won? || h.Busy? || h.Err?)
    && (h.Zone? ==> pc.Find? && h.place != NoPlace)
  }

  lemma HeardWhere(now: int, s: Slot, p: nat, x: Proc, r: Reply)
    ensures Plausible(x.pc, Hear(now, s, p, x, r))
    ensures var h := Hear(now, s, p, x, r);
      x.pc.Wait? ==> (h.Err? <==> !r.Answer?) && (h.Record? || h.Busy? || h.Err?)
  {}

  lemma TurnFlows(p: nat, t: Turn)
    requires Genuine(p, t)
    ensures Flow(t.before.procs[p], p, HeardAt(p, t), t.after)
  {}

  /** Position of a call in the fixed order of the sequence. */
  function Rank(pc: Pc): nat {
    match pc
    case Check => 0 case Claim => 1 case Wait => 2 case Renew => 3 case Acquire => 4
    case Arm => 5 case Find => 6 case Copy => 7 case Stat => 7 case Reread => 8 case Sum => 9
    case Mark => 10 case RbCheck => 11 case RbRemove => 12 case Unclaim => 13 case Yield => 13
    case Free => 14 case Save => 15 case Sweep => 16 case Done => 17 case Dead => 18
  }

  lemma FlowRises(x: Proc, h: Heard)
    requires !Ended(x)
    ensures Rank(x.pc) < Rank(NextPc(x, h)) || (x.pc.Wait? && NextPc(x, h).Wait?)
  {}

  lemma TurnRises(p: nat, log: seq<Turn>, k: nat)
    requires Chain(p, log) && k < |log|
    ensures var a, b := log[k].before.procs[p].pc, log[k].after.pc;
      Rank(a) < Rank(b) || (a.Wait? && b.Wait?)
  {
    assert Genuine(p, log[k]);
    TurnFlows(p, log[k]);
    FlowRises(log[k].before.procs[p], HeardAt(p, log[k]));
  }

  /** Calls happen in the fixed order and, polling apart, at most once: in particular a
      rollback removal precedes ReleaseClaim, which precedes the release of the lease. */
  lemma {:induction false} CallsInOrder(p: nat, log: seq<Turn>, i: nat, j: nat)
    requires Chain(p, log) && i < j < |log|
    ensures var a, b := log[i].before.procs[p].pc, log[j].before.procs[p].pc;
      Rank(a) < Rank(b) || (a.Wait? && b.Wait?)
    decreases j
  {
    TurnRises(p, log, j - 1);
    assert Resumes(p, log[j - 1], log[j]);
    if i < j - 1 { CallsInOrder(p, log, i, j - 1); }
  }

  // ---------------------------------------------------------------------------
  //  Exit discipline
  // ---------------------------------------------------------------------------

  /** What an execution has done so far. */
  datatype Tally = Tally(
    claimed: bool,   // ClaimForWrite won
    marked: bool,    // MarkReady reported success
    released: bool,  // the abort attempted ReleaseClaim
    ceded: bool,     // ReleaseClaim attempted before returning somebody else's record
    leaked: bool,    // left without touching the claim (location that leads to no object)
    guarded: bool,   // lease guard created
    freed: bool)     // lease released

  /** The call a led to the call b. */
  function Enter(t: Tally, a: Pc, b: Pc): Tally {
    Tally(t.claimed || (a.Claim? && b.Renew?),
          t.marked || (a.Mark? && b.Free?),
          t.released || a.Unclaim?,
          t.ceded || a.Yield?,
          t.leaked || (a.Find? && b.Free?),
          t.guarded || ((a.Renew? || a.Acquire?) && b.Arm?),
          t.freed || a.Free?)
  }

  function Tallied(p: nat, log: seq<Turn>): Tally
    requires forall k | 0 <= k < |log| :: Present(p, log[k])
  {
    if log == [] then Tally(false, false, false, false, false, false, false)
    else
      var last := log[|log| - 1];
      assert Present(p, last);
      Enter(Tallied(p, log[..|log| - 1]), last.before.procs[p].pc, last.after.pc)
  }

  predicate NoExit(t: Tally) { !t.marked && !t.released && !t.ceded && !t.leaked }

  predicate OneExit(t: Tally) {
    || (t.marked && !t.released && !t.ceded && !t.leaked)
    || (!t.marked && t.released && !t.ceded && !t.leaked)
    || (!t.marked && !t.released && t.ceded && !t.leaked)
    || (!t.marked && !t.released && !t.ceded && t.leaked)
  }

  /** The tally a request at this point must have. */
  predicate Square(t: Tally, x: Proc) {
    && t.guarded == x.guarded
    && (x.outcome.Created? <==> t.marked)
    && (t.ceded ==> x.outcome.Existing?)
    && ((x.pc.Check? || x.pc.Claim? || x.pc.Wait?) ==>
          !t.claimed && NoExit(t) && !t.guarded && !t.freed && x.outcome == Pending)
    && (InClaim(x.pc) ==>
          t.claimed && NoExit(t) && !t.freed && (if x.pc.Yield? then x.outcome.Existing? else x.outcome == Pending))
    && (InClaim(x.pc) && !x.pc.Renew? && !x.pc.Acquire? && !x.pc.Unclaim? ==> t.guarded)
    && (x.pc.Renew? || x.pc.Acquire? ==> !t.guarded)
    && (x.pc.Free? ==> t.claimed && OneExit(t) && t.guarded && !t.freed && (x.outcome.Existing? ==> t.ceded))
    && (x.pc.Save? || x.pc.Sweep? ==> t.claimed && OneExit(t) && t.marked && t.guarded && t.freed)
    && (x.pc.Done? ==>
          && (if t.claimed then OneExit(t) else NoExit(t))
          && t.freed == t.guarded && (t.guarded ==> t.claimed)
          && (t.claimed && x.outcome.Existing? ==> t.ceded))
  }

  lemma NextFits(x: Proc, p: nat, h: Heard, t: Tally)
    requires Square(t, x) && !Ended(x) && Plausible(x.pc, h)
    ensures Square(Enter(t, x.pc, NextPc(x, h)), Next(x, p, h))
  {}

  lemma TurnFits(p: nat, t: Turn, tally: Tally)
    requires Genuine(p, t) && Square(tally, t.before.procs[p])
    ensures Square(Enter(tally, t.before.procs[p].pc, t.after.pc), t.after)
  {
    var x, h := t.before.procs[p], HeardAt(p, t);
    TurnFlows(p, t);
    HeardWhere(t.now, t.before, p, x, t.reply);
    NextFits(x, p, h, tally);
  }

  lemma Shorter(p: nat, log: seq<Turn>)
    requires Chain(p, log) && FromStart(p, log) && |log| > 1
    ensures Chain(p, log[..|log| - 1]) && FromStart(p, log[..|log| - 1])
  {
    var head := log[..|log| - 1];
    forall i, j | 0 <= i && j == i + 1 < |head| ensures Resumes(p, head[i], head[j]) { assert Resumes(p, log[i], log[j]); }
    forall k | 0 <= k < |head| ensures Genuine(p, head[k]) { assert Genuine(p, log[k]); }
  }

  lemma {:induction false} LogFits(p: nat, log: seq<Turn>)
    requires Chain(p, log) && FromStart(p, log)
    ensures Square(Tallied(p, log), log[|log| - 1].after)
    decreases |log|
  {
    var n := |log| - 1;
    if n > 0 {
      Shorter(p, log);
      LogFits(p, log[..n]);
      assert Resumes(p, log[n - 1], log[n]);
    }
    assert Genuine(p, log[n]);
    TurnFits(p, log[n], Tallied(p, log[..n]));
  }

  /** Every path after a won claim accounts for it in exactly one way: MarkReady reported
      success, or the abort attempted ReleaseClaim, or ReleaseClaim was attempted because
      somebody else's record had turned up, or (only if the location led to no object) neither.
      The lease guard, if created, is released.  A created record is reported exactly if
      MarkReady reported success, and after a won claim somebody else's record exactly on the
      third exit.  No call but the poll is made twice. */
  lemma ExitDiscipline(p: nat, log: seq<Turn>)
    requires Execution(p, log)
    ensures var t, o := Tallied(p, log), log[|log| - 1].after.outcome;
      && (if t.claimed then OneExit(t) else NoExit(t))
      && t.freed == t.guarded && (t.guarded ==> t.claimed)
      && (o.Created? <==> t.marked)
      && (t.claimed ==> (o.Existing? <==> t.ceded))
    ensures forall i, j | 0 <= i < j < |log| && !log[i].before.procs[p].pc.Wait? ::
      log[i].before.procs[p].pc != log[j].before.procs[p].pc
  {
    LogFits(p, log);
    forall i, j | 0 <= i < j < |log| && !log[i].before.procs[p].pc.Wait?
      ensures log[i].before.procs[p].pc != log[j].before.procs[p].pc
    {
      CallsInOrder(p, log, i, j);
    }
  }

  // ---------------------------------------------------------------------------
  //  Giving up without giving the claim back
  // ---------------------------------------------------------------------------

  predicate Forsaking(p: nat, t: Turn)
    requires p in t.before.procs
  {
    Forsakes(t.before, t.before.procs[p], t.reply)
  }

  lemma TurnForsakes(p: nat, log: seq<Turn>, k: nat)
    requires Chain(p, log) && k < |log|
    ensures log[k].after.forsaken <==> log[k].before.procs[p].forsaken || Forsaking(p, log[k])
  {
    assert Genuine(p, log[k]);
  }

  /** A request is marked as having forsaken its claim exactly if one of its calls did. */
  lemma {:induction false} ForsakenIff(p: nat, log: seq<Turn>)
    requires Chain(p, log) && FromStart(p, log)
    ensures log[|log| - 1].after.forsaken <==> exists k | 0 <= k < |log| :: Forsaking(p, log[k])
    decreases |log|
  {
    var n := |log| - 1;
    var head := log[..n];
    TurnForsakes(p, log, n);
    if n > 0 {
      Shorter(p, log);
      ForsakenIff(p, head);
      assert Resumes(p, log[n - 1], log[n]);
      if head[n - 1].after.forsaken {
        var k :| 0 <= k < n && Forsaking(p, head[k]);
        assert Forsaking(p, log[k]);
      }
      if k :| 0 <= k < n && Forsaking(p, log[k]) { assert Forsaking(p, head[k]); }
    }
  }
}
