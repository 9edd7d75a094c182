/**
  From the per-call lemmas to whole runs: no ready record loses its bytes, at most one
  request at a time works on the persistent object, and creates are idempotent.
*/
module RegistrationSafety {
  import opened Base
  import opened Registration
  import opened RegistrationInvariant

  lemma EndedStays(c: Config, now: int, s: Slot, p: nat, r: Reply)
    requires p in s.procs && Ended(s.procs[p])
    ensures Step(c, now, s, p, r) == s
  {
    assert s.procs[p := s.procs[p]] == s.procs;
  }

  /** Dispatch over the call the request is about to make. */
  lemma RunKeeps(c: Config, now: int, s: Slot, p: nat, r: Reply)
    requires WellFormed(c) && Sound(c) && Inv(c, now, s)
    requires Enabled(c, now, s, Run(p, r)) && s.issued
    ensures Inv(c, now, Step(c, now, s, p, r))
  {
    if Ended(s.procs[p]) { EndedStays(c, now, s, p, r); return; }
    assert !s.procs[p].pc.Yield? by { assert ProcInv(c, now, s, p, s.procs[p]); }
    match s.procs[p].pc
    case Check => CheckKeeps(c, now, s, p, r);
    case Claim => ClaimKeeps(c, now, s, p, r);
    case Wait => WaitKeeps(c, now, s, p, r);
    case Renew => RenewKeeps(c, now, s, p, r);
    case Acquire => AcquireKeeps(c, now, s, p, r);
    case Arm => ArmKeeps(c, now, s, p, r);
    case Find => FindKeeps(c, now, s, p, r);
    case Copy => CopyKeeps(c, now, s, p, r);
    case Stat => StatKeeps(c, now, s, p, r);
    case Reread => RereadKeeps(c, now, s, p, r);
    case Sum => SumKeeps(c, now, s, p, r);
    case Mark => MarkKeeps(c, now, s, p, r);
    case RbCheck => RbCheckKeeps(c, now, s, p, r);
    case RbRemove => RbRemoveKeeps(c, now, s, p, r);
    case Unclaim => UnclaimKeeps(c, now, s, p, r);
    case Yield =>
    case Free => FreeKeeps(c, now, s, p, r);
    case Save => SaveKeeps(c, now, s, p, r);
    case Sweep => SweepKeeps(c, now, s, p, r);
  }

  lemma FlagKeeps(c: Config, now: int, s: Slot, p: nat, lost: bool)
    requires Inv(c, now, s) && s.issued && p in s.procs
    ensures Inv(c, now, Put(s, p, s.procs[p].(lost := lost)))
  {
    assert ProcInv(c, now, s, p, s.procs[p]);
    Resumed(c, now, s, p, s.procs[p].(lost := lost), s.seen);
  }

  /** A renewal that has just set the lease. */
  lemma BeatKeeps(c: Config, now: int, s: Slot, p: nat, lost: bool)
    requires WellFormed(c) && Inv(c, now, s) && s.issued && p in s.procs
    requires s.lease == Lease(s.procs[p].inst, now + c.ttl)
    ensures Inv(c, now, Put(s, p, s.procs[p].(lost := lost, beat := now)))
  {
    assert ProcInv(c, now, s, p, s.procs[p]);
    Resumed(c, now, s, p, s.procs[p].(lost := lost, beat := now), s.seen);
  }

  lemma RenewerBeats(c: Config, now: int, s: Slot, p: nat, r: Reply)
    requires WellFormed(c) && Sound(c) && Inv(c, now, s) && s.issued
    requires p in s.procs && (c.gcAtomic ==> s.job == NoJob) && Effective(r) && Holds(s, s.procs[p])
    ensures Inv(c, now, RenewerTurn(c, now, s, p, r))
  {
    var u := s.(lease := Lease(s.procs[p].inst, now + c.ttl));
    LeaseExtended(c, now, s, p);
    BeatKeeps(c, now, u, p, r != Answer);
    RenewerSets(c, now, s, p, r, u);
  }

  lemma RenewerSets(c: Config, now: int, s: Slot, p: nat, r: Reply, u: Slot)
    requires p in s.procs && Effective(r) && Holds(s, s.procs[p])
    requires u == s.(lease := Lease(s.procs[p].inst, now + c.ttl))
    ensures RenewerTurn(c, now, s, p, r) == Put(u, p, u.procs[p].(lost := r != Answer, beat := now))
  {}

  lemma RenewerKeeps(c: Config, now: int, s: Slot, p: nat, r: Reply)
    requires WellFormed(c) && Sound(c) && Inv(c, now, s) && s.issued
    requires p in s.procs && (c.gcAtomic ==> s.job == NoJob)
    ensures Inv(c, now, RenewerTurn(c, now, s, p, r))
  {
    if Effective(r) && Holds(s, s.procs[p]) {
      RenewerBeats(c, now, s, p, r);
    } else {
      FlagKeeps(c, now, s, p, true);
      assert RenewerTurn(c, now, s, p, r) == Put(s, p, s.procs[p].(lost := true));
    }
  }

  lemma StartKeeps(c: Config, now: int, s: Slot, p: nat, inst: nat)
    requires Inv(c, now, s) && s.issued && p !in s.procs && inst in c.instances
    ensures Inv(c, now, Put(s, p, Newcomer(inst)))
  {
    Resumed(c, now, s, p, Newcomer(inst), s.seen);
  }

  lemma CrashKeeps(c: Config, now: int, s: Slot, p: nat)
    requires Inv(c, now, s) && s.issued && p in s.procs
    ensures Inv(c, now, Put(s, p, s.procs[p].(pc := Dead)))
  {
    assert ProcInv(c, now, s, p, s.procs[p]);
    Resumed(c, now, s, p, s.procs[p].(pc := Dead), s.seen);
  }

  /** Deleting a ready record removes its location and the object there. */
  lemma DeleteKeeps(c: Config, now: int, s: Slot)
    requires WellFormed(c) && Sound(c) && Inv(c, now, s) && s.issued
    requires IsReady(s)
    ensures Inv(c, now, Deleted(s))
  {
    var t := Deleted(s);
    forall q | q in t.procs ensures ProcInv(c, now, t, q, t.procs[q]) {
      assert ProcInv(c, now, s, q, s.procs[q]);
    }
  }

  /** A client may write the staging object at any time. */
  lemma UploadKeeps(c: Config, now: int, s: Slot, d: Content)
    requires WellFormed(c) && Sound(c) && Inv(c, now, s) && s.issued
    ensures Inv(c, now, s.(staging := Blob(d, now)))
  {
    var t := s.(staging := Blob(d, now));
    forall q | q in t.procs ensures ProcInv(c, now, t, q, t.procs[q]) {
      assert ProcInv(c, now, s, q, s.procs[q]);
    }
  }

  /** Only a lapsed lease is taken, so no live request holds this source. */
  lemma GcClaimKeeps(c: Config, now: int, s: Slot, start: int)
    requires WellFormed(c) && Sound(c) && Inv(c, now, s) && s.issued
    requires s.job == NoJob && start <= now && s.lease.Lease? && s.lease.expires <= now
    ensures Inv(c, now, LeaseTaken(c, now, s, start))
  {
    var t := LeaseTaken(c, now, s, start);
    forall q | q in t.procs ensures ProcInv(c, now, t, q, t.procs[q]) {
      assert ProcInv(c, now, s, q, s.procs[q]);
    }
  }

  /** The age guard spares the rows of live requests. */
  lemma GcReclaimKeeps(c: Config, now: int, s: Slot)
    requires WellFormed(c) && Sound(c) && Inv(c, now, s) && s.issued
    requires s.job.Claimed?
    ensures Inv(c, now, RowReclaimed(c, s))
  {
    var t := RowReclaimed(c, s);
    forall q | q in t.procs ensures ProcInv(c, now, t, q, t.procs[q]) {
      assert ProcInv(c, now, s, q, s.procs[q]);
    }
  }

  /** Reading the location fixes the zone the candidate will be removed from. */
  lemma GcResolveKeeps(c: Config, now: int, s: Slot)
    requires WellFormed(c) && Sound(c) && Inv(c, now, s) && s.issued
    requires s.job.Reclaimed?
    ensures Inv(c, now, LocationResolved(s))
  {
    var t := LocationResolved(s);
    forall q | q in t.procs ensures ProcInv(c, now, t, q, t.procs[q]) {
      assert ProcInv(c, now, s, q, s.procs[q]);
    }
  }

  /** A reliable read dooms only sources without a ready record. */
  lemma GcCheckKeeps(c: Config, now: int, s: Slot)
    requires WellFormed(c) && Sound(c) && Inv(c, now, s) && s.issued
    requires s.job.Resolved?
    ensures Inv(c, now, RecordChecked(s, Answer))
  {
    var t := RecordChecked(s, Answer);
    forall q | q in t.procs ensures ProcInv(c, now, t, q, t.procs[q]) {
      assert ProcInv(c, now, s, q, s.procs[q]);
    }
  }

  /** The object of a doomed candidate is nobody's. */
  lemma DoomedStagingGone(c: Config, now: int, s: Slot)
    requires Inv(c, now, s) && s.issued && s.job == Doomed(Staging)
    ensures Inv(c, now, s.(staging := NoBlob))
  {
    var t := s.(staging := NoBlob);
    assert SlotInv(c, now, t);
    forall q | q in t.procs ensures ProcInv(c, now, t, q, t.procs[q]) {
      assert ProcInv(c, now, s, q, s.procs[q]);
    }
  }

  lemma DoomedPersistentGone(c: Config, now: int, s: Slot)
    requires Inv(c, now, s) && s.issued && s.job == Doomed(Persistent)
    ensures Inv(c, now, s.(persistent := NoBlob))
  {
    var t := s.(persistent := NoBlob);
    assert SlotInv(c, now, t);
    forall q | q in t.procs ensures ProcInv(c, now, t, q, t.procs[q]) {
      assert ProcInv(c, now, s, q, s.procs[q]);
    }
  }

  /** A collector may stop between any two calls. */
  lemma GcCrashKeeps(c: Config, now: int, s: Slot)
    requires WellFormed(c) && Sound(c) && Inv(c, now, s) && s.issued
    requires s.job != NoJob
    ensures Inv(c, now, s.(job := NoJob))
  {
    var t := s.(job := NoJob);
    forall q | q in t.procs ensures ProcInv(c, now, t, q, t.procs[q]) {
      assert ProcInv(c, now, s, q, s.procs[q]);
    }
  }

  /** The candidate's object is gone, its location is next. */
  lemma UnlinkingKeeps(c: Config, now: int, s: Slot)
    requires Inv(c, now, s) && s.issued && s.job.Doomed? && Object(s, s.job.zone) == NoBlob
    ensures Inv(c, now, s.(job := Unlinking(s.job.zone)))
  {
    var t := s.(job := Unlinking(s.job.zone));
    forall q | q in t.procs ensures ProcInv(c, now, t, q, t.procs[q]) {
      assert ProcInv(c, now, s, q, s.procs[q]);
    }
  }

  /** No record is ready while a candidate is doomed. */
  lemma GcRemoveKeeps(c: Config, now: int, s: Slot, r: Reply)
    requires WellFormed(c) && Sound(c) && Inv(c, now, s) && s.issued
    requires s.job.Doomed?
    ensures Inv(c, now, CandidateRemoved(s, r))
  {
    var u := WithObject(s, s.job.zone, NoBlob);
    if s.job.zone == Staging { DoomedStagingGone(c, now, s); } else { DoomedPersistentGone(c, now, s); }
    if r == Answer {
      UnlinkingKeeps(c, now, u);
      assert CandidateRemoved(s, r) == u.(job := Unlinking(u.job.zone));
    } else if Effective(r) {
      GcCrashKeeps(c, now, u);
      assert CandidateRemoved(s, r) == u.(job := NoJob);
    } else {
      GcCrashKeeps(c, now, s);
    }
  }

  /** The location goes only after its object is gone. */
  lemma GcUnlinkKeeps(c: Config, now: int, s: Slot, r: Reply)
    requires WellFormed(c) && Sound(c) && Inv(c, now, s) && s.issued
    requires s.job.Unlinking?
    ensures Inv(c, now, LocationDropped(s, r))
  {
    var t := LocationDropped(s, r);
    forall q | q in t.procs ensures ProcInv(c, now, t, q, t.procs[q]) {
      assert ProcInv(c, now, s, q, s.procs[q]);
    }
  }

  /** With a stable listing the references are complete for the locations of that moment. */
  lemma PassBeginKeeps(c: Config, now: int, s: Slot, cutoff: int)
    requires WellFormed(c) && Sound(c) && Inv(c, now, s) && s.issued
    requires cutoff <= now - c.grace
    ensures Inv(c, now, s.(pass := PassOver(s, cutoff, false)))
  {
    var t := s.(pass := PassOver(s, cutoff, false));
    forall q | q in t.procs ensures ProcInv(c, now, t, q, t.procs[q]) {
      assert ProcInv(c, now, s, q, s.procs[q]);
    }
  }

  /** An object that is unreferenced and older than the grace period belongs to nobody. */
  lemma PassDeleteKeeps(c: Config, now: int, s: Slot)
    requires WellFormed(c) && Sound(c) && Inv(c, now, s) && s.issued
    requires s.pass.Pass? && !s.pass.referenced && s.persistent.Blob? && s.persistent.mtime <= s.pass.cutoff
    ensures Inv(c, now, s.(persistent := NoBlob, pass := NoPass))
  {
    var t := s.(persistent := NoBlob, pass := NoPass);
    forall q | q in t.procs ensures ProcInv(c, now, t, q, t.procs[q]) {
      assert ProcInv(c, now, s, q, s.procs[q]);
    }
  }

  lemma PassEndKeeps(c: Config, now: int, s: Slot)
    requires WellFormed(c) && Sound(c) && Inv(c, now, s) && s.issued
    requires s.pass.Pass?
    ensures Inv(c, now, s.(pass := NoPass))
  {
    var t := s.(pass := NoPass);
    forall q | q in t.procs ensures ProcInv(c, now, t, q, t.procs[q]) {
      assert ProcInv(c, now, s, q, s.procs[q]);
    }
  }

  lemma ActionKeeps(c: Config, now: int, s: Slot, a: Action)
    requires WellFormed(c) && Sound(c) && Inv(c, now, s) && Enabled(c, now, s, a)
    ensures Inv(c, now, Apply(c, now, s, a))
  {
    if s.issued {
      match a
      case Issue(_, _, _) =>
      case Upload(d) => UploadKeeps(c, now, s, d);
      case Start(p, i) => StartKeeps(c, now, s, p, i);
      case Run(p, r) => RunKeeps(c, now, s, p, r);
      case RunRenewer(p, r) => RenewerKeeps(c, now, s, p, r);
      case Crash(p) => CrashKeeps(c, now, s, p);
      case Delete => DeleteKeeps(c, now, s);
      case GcClaim(start) => GcClaimKeeps(c, now, s, start);
      case GcReclaim => GcReclaimKeeps(c, now, s);
      case GcResolve => GcResolveKeeps(c, now, s);
      case GcCheck(_) => GcCheckKeeps(c, now, s);
      case GcRemove(r) => GcRemoveKeeps(c, now, s, r);
      case GcUnlink(r) => GcUnlinkKeeps(c, now, s, r);
      case GcCrash => GcCrashKeeps(c, now, s);
      case PassBegin(cutoff, _) => PassBeginKeeps(c, now, s, cutoff);
      case PassDelete => PassDeleteKeeps(c, now, s);
      case PassEnd => PassEndKeeps(c, now, s);
    }
  }

  lemma TimeKeeps(c: Config, now: int, later: int, s: Slot)
    requires Inv(c, now, s) && now <= later && InTime(c, later, s)
    ensures Inv(c, later, s)
  {
    forall q | q in s.procs ensures ProcInv(c, later, s, q, s.procs[q]) {
      assert ProcInv(c, now, s, q, s.procs[q]);
    }
  }

  // ---------------------------------------------------------------------------
  //  Whole runs
  // ---------------------------------------------------------------------------

  ghost predicate WorldInv(c: Config, w: World) {
    forall f :: f in w.slots ==> Inv(c, w.now, w.slots[f])
  }

  lemma EventKeeps(c: Config, w: World, e: Event)
    requires WellFormed(c) && Sound(c) && WorldInv(c, w) && Possible(c, w, e)
    ensures WorldInv(c, Advance(c, w, e))
  {
    var v := Advance(c, w, e);
    forall f | f in v.slots ensures Inv(c, v.now, v.slots[f]) {
      match e
      case On(g, a) =>
        if f == g {
          assert Inv(c, w.now, SlotOf(w, f));
          ActionKeeps(c, w.now, SlotOf(w, f), a);
        }
      case Tick(t) => TimeKeeps(c, w.now, t, w.slots[f]);
    }
  }

  lemma {:induction false} RunsKeep(c: Config, v: World, run: seq<Event>, w: World)
    requires WellFormed(c) && Sound(c) && WorldInv(c, v) && Leads(c, v, run, w)
    ensures WorldInv(c, w)
    decreases run
  {
    if run != [] {
      EventKeeps(c, v, run[0]);
      RunsKeep(c, Advance(c, v, run[0]), run[1..], w);
    }
  }

  lemma ReachableInv(c: Config, w: World)
    requires WellFormed(c) && Sound(c) && Reachable(c, w)
    ensures WorldInv(c, w)
  {
    var run :| Leads(c, GENESIS, run, w);
    RunsKeep(c, GENESIS, run, w);
  }

  /** In every run of c, every ready record keeps its bytes. */
  ghost predicate NeverLosesBytes(c: Config) {
    forall w, f :: Reachable(c, w) && f in w.slots ==> BytesKept(w.slots[f])
  }

  /** No ready record ever loses its bytes, in every interleaving, with crashes anywhere. */
  lemma SoundNeverLosesBytes(c: Config)
    requires WellFormed(c) && Sound(c)
    ensures NeverLosesBytes(c)
  {
    forall w, f | Reachable(c, w) && f in w.slots ensures BytesKept(w.slots[f]) {
      ReachableInv(c, w);
      assert Inv(c, w.now, w.slots[f]);
    }
  }

  /** Copying, reusing, checksumming, committing or rolling back, before the commit.  A request
      whose MarkReady took effect and reported an error also rolls back; see LateRollback. */
  predicate Working(x: Proc) {
    && !x.committed
    && (x.pc.Copy? || x.pc.Stat? || x.pc.Reread? || x.pc.Sum? || x.pc.Mark? || x.pc.RbCheck? || x.pc.RbRemove?)
  }

  /** At most one request works on a FileSource, and never while GC treats it as a candidate. */
  lemma MutualExclusion(c: Config, w: World, f: FileSource, p: nat, q: nat)
    requires WellFormed(c) && Sound(c) && Reachable(c, w) && f in w.slots
    requires p in w.slots[f].procs && Working(w.slots[f].procs[p])
    ensures w.slots[f].job == NoJob
    ensures q in w.slots[f].procs && Working(w.slots[f].procs[q]) ==> p == q
    ensures w.slots[f].row.Row? && w.slots[f].row.id == p && w.slots[f].row.state == Claiming
  {
    ReachableInv(c, w);
    var s := w.slots[f];
    assert Inv(c, w.now, s);
    assert ProcInv(c, w.now, s, p, s.procs[p]);
    assert q in s.procs ==> ProcInv(c, w.now, s, q, s.procs[q]);
  }

  /** A request that removes the persistent object although its own MarkReady took effect does
      so only after its record was deleted, and takes nothing that a location refers to. */
  lemma LateRollback(c: Config, w: World, f: FileSource, p: nat)
    requires WellFormed(c) && Sound(c) && Reachable(c, w) && f in w.slots
    requires p in w.slots[f].procs && w.slots[f].procs[p].committed && w.slots[f].procs[p].pc.RbRemove?
    ensures var s := w.slots[f]; s.persistent.NoBlob? || s.loc == NoPlace
    ensures var s := w.slots[f]; !(IsReady(s) && s.row.id == p)
  {
    ReachableInv(c, w);
    var s := w.slots[f];
    assert Inv(c, w.now, s);
    assert ProcInv(c, w.now, s, p, s.procs[p]);
  }

  /** The defensive exit after a failed copy, which returns somebody else's record under one's
      own claim, is never taken: whoever re-reads holds the claim, so no record is ready. */
  lemma YieldUnreachable(c: Config, w: World, f: FileSource, p: nat)
    requires WellFormed(c) && Sound(c) && Reachable(c, w) && f in w.slots && p in w.slots[f].procs
    ensures !w.slots[f].procs[p].pc.Yield?
    ensures w.slots[f].procs[p].pc.Reread? ==> ClaimedBy(w.slots[f], p) && !IsReady(w.slots[f])
  {
    ReachableInv(c, w);
    assert Inv(c, w.now, w.slots[f]);
    assert ProcInv(c, w.now, w.slots[f], p, w.slots[f].procs[p]);
  }
}
