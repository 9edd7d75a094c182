/**
  Claims that outlive their request.  A request leaves its claiming row behind exactly if
  ClaimForWrite reported an error after inserting the row, the location leads to no object, or
  ReleaseClaim had no effect.  The lease guard then releases the lease all the same, and that is
  final: the collector reclaims claiming rows only for expired leases, so the row stays, and no
  create of the FileSource ever succeeds again.
*/
module LeftClaims {
  import opened Base
  import opened Registration
  import opened RegistrationInvariant
  import opened RegistrationSafety
  import opened RegistrationTheorems
  import opened CreateMetadata
  import opened RunLogs

  // ---------------------------------------------------------------------------
  //  When a claim is left behind
  // ---------------------------------------------------------------------------

  /** The call that makes a request return leaves its claiming row in place exactly if the
      request has forsaken it. */
  lemma ReturnHoldsIff(c: Config, now: int, s: Slot, p: nat, r: Reply)
    requires Inv(c, now, s) && p in s.procs && !Ended(s.procs[p])
    requires Step(c, now, s, p, r).procs[p].pc.Done?
    ensures ClaimedBy(Step(c, now, s, p, r), p) <==> Step(c, now, s, p, r).procs[p].forsaken
  {
    var x := s.procs[p];
    assert ProcInv(c, now, s, p, x);
    assert Step(c, now, s, p, r).row == RowAfter(now, s, p, x, r);
    assert NextPc(x, Hear(now, s, p, x, r)).Done?;
  }

  ghost predicate MetInv(c: Config, t: Turn) { Inv(c, t.now, t.before) }

  ghost predicate AllMetInv(c: Config, log: seq<Turn>) { forall t :: t in log ==> MetInv(c, t) }

  lemma {:induction false} TurnsMeetInv(c: Config, v: World, run: seq<Event>, w: World, f: FileSource, p: nat)
    requires WellFormed(c) && Sound(c) && WorldInv(c, v) && Leads(c, v, run, w)
    ensures AllMetInv(c, TurnsOf(c, v, run, f, p))
    decreases run
  {
    if run != [] {
      EventKeeps(c, v, run[0]);
      TurnsMeetInv(c, Advance(c, v, run[0]), run[1..], w, f, p);
      if Calls(v, run[0], f, p) { assert f in v.slots && Inv(c, v.now, v.slots[f]); }
    }
  }

  lemma LastTurnIff(c: Config, p: nat, log: seq<Turn>)
    requires Execution(p, log) && MetInv(c, log[|log| - 1])
    ensures ClaimedBy(LeftBy(c, p, log[|log| - 1]), p) <==> log[|log| - 1].after.forsaken
  {
    var t := log[|log| - 1];
    assert Genuine(p, t);
    ReturnHoldsIff(c, t.now, t.before, p, t.reply);
  }

  /** The state that a call of p leaves. */
  function LeftBy(c: Config, p: nat, t: Turn): Slot
    requires Present(p, t)
  {
    Step(c, t.now, t.before, p, t.reply)
  }

  /** After the last call there is still p's claiming row. */
  predicate LeavesClaim(c: Config, p: nat, log: seq<Turn>) {
    log != [] && Present(p, log[|log| - 1]) && ClaimedBy(LeftBy(c, p, log[|log| - 1]), p)
  }

  /** Some call of p left the row although p was giving up. */
  predicate SomeForsakes(p: nat, log: seq<Turn>) {
    exists k | 0 <= k < |log| :: Present(p, log[k]) && Forsaking(p, log[k])
  }

  lemma ExecutionLeavesIff(c: Config, p: nat, log: seq<Turn>)
    requires Execution(p, log) && AllMetInv(c, log)
    ensures LeavesClaim(c, p, log) <==> SomeForsakes(p, log)
  {
    ForsakenIff(p, log);
    assert log[|log| - 1] in log;
    assert MetInv(c, log[|log| - 1]);
    LastTurnIff(c, p, log);
  }

  /** In every run of a sound deployment: when a request has just returned, its claiming row is
      still there if and only if one of its calls forsook it. */
  lemma ReturnLeavesClaimIff(c: Config, run: seq<Event>, w: World, f: FileSource, p: nat)
    requires WellFormed(c) && Sound(c) && Leads(c, GENESIS, run, w)
    requires p in SlotOf(w, f).procs && SlotOf(w, f).procs[p].pc.Done?
    ensures LeavesClaim(c, p, TurnsOf(c, GENESIS, run, f, p)) <==> SomeForsakes(p, TurnsOf(c, GENESIS, run, f, p))
  {
    ReturnedExecutions(c, run, w, f, p);
    TurnsMeetInv(c, GENESIS, run, w, f, p);
    ExecutionLeavesIff(c, p, TurnsOf(c, GENESIS, run, f, p));
  }

  // ---------------------------------------------------------------------------
  //  What becomes of it
  // ---------------------------------------------------------------------------

  predicate Leasing(x: Proc) { x.pc.Renew? || x.pc.Acquire? }

  /** A claiming row whose request is gone, without a lease, and nobody about to take one. */
  ghost predicate Stuck(s: Slot, p: nat) {
    && s.issued && ClaimedBy(s, p) && s.lease.NoLease? && s.job == NoJob
    && p in s.procs && Ended(s.procs[p])
    && forall q | q in s.procs :: !Leasing(s.procs[q])
  }

  /** No other request can change the row, take a lease or learn an id. */
  lemma StuckCall(c: Config, now: int, s: Slot, p: nat, q: nat, r: Reply)
    requires Stuck(s, p) && q in s.procs && q != p
    ensures var x := s.procs[q]; var t, y := Effect(c, now, s, q, x, r), After(now, s, q, x, r);
      && t.row == s.row && t.lease == s.lease && t.job == s.job && t.issued && t.procs == s.procs
      && !Leasing(y) && (Succeeds(y.outcome) ==> y.outcome == x.outcome)
  {
    var x := s.procs[q];
    var h := Hear(now, s, q, x, r);
    assert !Leasing(x);
    NextTells(x, q, h);
    RecordIsReady(now, s, q, x, r);
    assert !h.Won?;
    assert After(now, s, q, x, r).pc == NextPc(x, h);
  }

  lemma StuckStep(c: Config, now: int, s: Slot, p: nat, q: nat, r: Reply)
    requires Stuck(s, p) && q in s.procs
    ensures Stuck(Step(c, now, s, q, r), p) && Step(c, now, s, q, r).seen == s.seen
  {
    if q == p {
      EndedStays(c, now, s, p, r);
    } else {
      StuckCall(c, now, s, p, q, r);
    }
  }

  lemma StuckAction(c: Config, now: int, s: Slot, p: nat, a: Action)
    requires Stuck(s, p) && Enabled(c, now, s, a)
    ensures Stuck(Apply(c, now, s, a), p) && Apply(c, now, s, a).seen == s.seen
  {
    if a.Run? {
      StuckStep(c, now, s, p, a.p, a.r);
    } else if !a.RunRenewer? && !a.Crash? && !a.Start? {
      OthersQuiet(c, now, s, a);
    }
  }

  /** In every deployment a stuck source stays stuck, whatever happens. */
  lemma {:induction false} StuckForever(c: Config, v: World, run: seq<Event>, w: World, f: FileSource, p: nat)
    requires Leads(c, v, run, w) && Stuck(SlotOf(v, f), p)
    ensures Stuck(SlotOf(w, f), p) && SlotOf(w, f).seen == SlotOf(v, f).seen
    decreases run
  {
    if run != [] {
      if run[0].On? && run[0].source == f { StuckAction(c, v.now, SlotOf(v, f), p, run[0].act); }
      StuckForever(c, Advance(c, v, run[0]), run[1..], w, f, p);
    }
  }

  /** In a sound deployment a claiming row without a lease whose request is gone is stuck: nobody
      else can be under way to a lease. */
  lemma LeaselessIsStuck(c: Config, now: int, s: Slot, p: nat)
    requires Inv(c, now, s) && p in s.procs && Ended(s.procs[p]) && ClaimedBy(s, p) && s.lease.NoLease?
    ensures Stuck(s, p)
  {
    forall q | q in s.procs ensures !Leasing(s.procs[q]) {
      assert ProcInv(c, now, s, q, s.procs[q]);
    }
  }

  /** A request that forsook its claim holds nobody else's lease when it comes to release. */
  lemma ReleaseEmptiesLease(c: Config, now: int, s: Slot, p: nat, r: Reply)
    requires Inv(c, now, s) && p in s.procs && s.procs[p].pc.Free? && s.procs[p].forsaken && Effective(r)
    ensures var t := Step(c, now, s, p, r);
      t.lease.NoLease? && ClaimedBy(t, p) && t.procs[p].pc.Done? && t.seen == s.seen
  {
    var x := s.procs[p];
    assert ProcInv(c, now, s, p, x);
    assert After(now, s, p, x, r) == x.(pc := Done);
  }

  lemma ReleaseSticks(c: Config, w: World, f: FileSource, p: nat, r: Reply)
    requires WellFormed(c) && Sound(c) && Reachable(c, w) && p in SlotOf(w, f).procs
    requires SlotOf(w, f).procs[p].pc.Free? && SlotOf(w, f).procs[p].forsaken
    requires Possible(c, w, On(f, Run(p, r))) && Effective(r)
    ensures var t := SlotOf(Advance(c, w, On(f, Run(p, r))), f); Stuck(t, p) && t.seen == SlotOf(w, f).seen
  {
    var e := On(f, Run(p, r));
    var v := Advance(c, w, e);
    ReachableInv(c, w);
    EventKeeps(c, w, e);
    assert Inv(c, w.now, SlotOf(w, f)) && Inv(c, v.now, SlotOf(v, f));
    ReleaseEmptiesLease(c, w.now, SlotOf(w, f), p, r);
    LeaselessIsStuck(c, v.now, SlotOf(v, f), p);
  }

  /** Once a request that forsook its claim has released its lease, the row is there for good: in
      every continuation it is still claiming, the collector cannot claim the source, and no
      create of this FileSource succeeds. */
  lemma LeftForGood(c: Config, w: World, f: FileSource, p: nat, r: Reply, run: seq<Event>, later: World)
    requires WellFormed(c) && Sound(c) && Reachable(c, w) && p in SlotOf(w, f).procs
    requires SlotOf(w, f).procs[p].pc.Free? && SlotOf(w, f).procs[p].forsaken
    requires Possible(c, w, On(f, Run(p, r))) && Effective(r)
    requires Leads(c, Advance(c, w, On(f, Run(p, r))), run, later)
    ensures ClaimedBy(SlotOf(later, f), p) && SlotOf(later, f).seen == SlotOf(w, f).seen
    ensures forall start :: !Enabled(c, later.now, SlotOf(later, f), GcClaim(start))
  {
    ReleaseSticks(c, w, f, p, r);
    StuckForever(c, Advance(c, w, On(f, Run(p, r))), run, later, f, p);
  }

  /** The request after meeting a location without physical reference, before and after it has
      released the lease. */
  function Stranded(c: Config, i: nat, lease: Lease, pc: Pc): Slot {
    Fresh(c, i, false).(row := Row(1, Claiming, 0, ""), lease := lease,
      procs := map[1 := Proc(i, pc, true, false, NoPlace, 0, 0, 0, "", false, true, Failed)])
  }

  lemma StrandingSteps(c: Config, i: nat)
    requires i in c.instances
    ensures Step(c, 0, Leased(c, Fresh(c, i, false), 0, i, Find), 1, Answer) == Stranded(c, i, Lease(i, c.ttl), Free)
    ensures Step(c, 0, Stranded(c, i, Lease(i, c.ttl), Free), 1, Answer) == Stranded(c, i, NoLease, Done)
  {}

  lemma StrandedAttainable(c: Config, i: nat)
    requires i in c.instances
    ensures Attainable(c, ALONE, 0, Stranded(c, i, NoLease, Done))
  {
    StartReachable(c);
    FreshAttainable(c, ALONE, i, false);
    LeasedAttainable(c, ALONE, 0, Fresh(c, i, false), i);
    StrandingSteps(c, i);
    Call(c, ALONE, 0, Leased(c, Fresh(c, i, false), 0, i, Find), 1, Answer);
    Call(c, ALONE, 0, Stranded(c, i, Lease(i, c.ttl), Free), 1, Answer);
  }

  /** Every deployment, however sound, has a run in which every call answers and yet a source
      gets stuck: its location has no physical reference. */
  lemma CanGetStuck(c: Config)
    requires WellFormed(c)
    ensures exists w, f, p :: Reachable(c, w) && Stuck(SlotOf(w, f), p)
  {
    var i :| i in c.instances;
    StrandedAttainable(c, i);
    var w := Among(ALONE, 0, Stranded(c, i, NoLease, Done));
    assert Reachable(c, w) && Stuck(SlotOf(w, ALONE.source), 1);
  }
}
