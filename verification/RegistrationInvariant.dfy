/**
  The inductive invariant of the registration protocol, per FileSource, and its
  preservation by every action of a sound deployment.
*/
module RegistrationInvariant {
  import opened Base
  import opened Registration

  /** The deployments for which the invariant is inductive. */
  predicate Sound(c: Config) {
    && c.savesReliable
    && c.readsReliable
    && c.listingStable
    && (c.gc !in c.instances || c.gcAtomic)
  }

  /** Committed, and still running. */
  predicate Settled(x: Proc) { x.committed && x.pc != Done && x.pc != Dead }

  /** MarkReady took effect but was reported as an error, and the rollback is running. */
  predicate Rueful(x: Proc) { x.committed && !x.outcome.Created? && (x.pc.RbCheck? || x.pc.RbRemove?) }

  /** Control-flow facts about a process.  No process ever yields. */
  predicate Shape(x: Proc) {
    && !x.pc.Yield?
    && (x.committed ==>
          && (x.pc.RbCheck? || x.pc.RbRemove? || x.pc.Unclaim? || x.pc.Free? || x.pc.Save? || x.pc.Sweep? || Ended(x))
          && x.found != NoPlace && x.guarded)
    && (x.forsaken ==> !x.committed && (x.pc.Free? || Ended(x)))
    && ((x.pc.Save? || x.pc.Sweep?) ==> x.committed && x.outcome.Created?)
    && (x.pc == Free && x.outcome.Created? ==> x.committed)
    && (InClaim(x.pc) ==> x.outcome == Pending)
    && (x.pc.Free? ==> x.guarded && !x.outcome.Existing?)
    && ((x.pc.Check? || x.pc.Claim? || x.pc.Wait? || x.pc.Renew? || x.pc.Acquire?) ==>
          !x.guarded && x.found == NoPlace && x.outcome == Pending)
    && ((x.pc.Arm? || x.pc.Find?) ==> x.guarded && x.found == NoPlace)
    && ((x.pc.Copy? || x.pc.Stat? || x.pc.Reread? || x.pc.Sum? || x.pc.Mark? || x.pc.RbCheck? || x.pc.RbRemove?) ==>
          x.guarded && x.found != NoPlace)
    && (x.pc == Copy ==> x.found == Staging)
    && (x.pc == Stat ==> x.found == Persistent)
  }

  /** Claim and lease ownership: while it runs, a request holds its claim exactly if the row
      says so. */
  predicate Ownership(c: Config, now: int, s: Slot, p: nat, x: Proc) {
    && x.inst in c.instances
    && (Holding(x) ==> ClaimedBy(s, p) && s.row.createdAt == x.claimedAt)
    && (ClaimedBy(s, p) && !Ended(x) ==> Holding(x))
    && (Pledged(x) ==> now - x.claimedAt < c.ttl)
    && (Critical(x) && s.lease.Lease? ==>
          s.lease.owner == x.inst && x.beat <= now < x.beat + c.ttl <= s.lease.expires)
    && (s.job != NoJob ==> !Critical(x))
  }

  /** What a process knows about the location and the objects. */
  predicate Knowledge(s: Slot, x: Proc) {
    && ((x.pc.Copy? || x.pc.Stat? || x.pc.Sum? || x.pc.Mark?) ==> s.loc == x.found)
    && ((x.pc.Sum? || x.pc.Mark?) ==> s.persistent.Blob?)
    && ((x.pc.Sum? || x.pc.Mark?) && x.found == Staging ==> s.staging.Blob?)
    && (x.pc == Mark ==> s.persistent.data == x.sum)
    && (x.found == Persistent ==> s.moved)
    && (x.found != NoPlace ==> s.linked)
    && (s.job != NoJob && Marks(s.job, Staging) && Settled(x) ==>
          x.found != Persistent)
  }

  /** What a process whose MarkReady took effect still relies on. */
  predicate Aftermath(c: Config, now: int, s: Slot, p: nat, x: Proc) {
    && (x.committed && x.found == Staging ==> s.copier == Some(p))
    && (Settled(x) && x.found == Staging && !x.outcome.Created? ==> !s.moved)
    && (Settled(x) && x.found == Persistent ==>
          s.loc == Persistent || (s.loc == NoPlace && s.persistent.NoBlob?))
    && (Rueful(x) ==>
          || (x.pc == RbCheck && IsReady(s) && s.row.id == p)
          || (x.found == Staging && s.loc == NoPlace)
          || (x.found == Persistent && s.persistent.NoBlob?))
    && ((x.pc.Free? || x.pc.Save?) && x.outcome.Created? && IsReady(s) && s.row.id == p && s.loc == Staging ==>
          s.persistent.Blob? && s.persistent.data == s.row.sum)
    && (Ferrying(x) ==>
          && now - x.copiedAt < c.grace
          && (s.persistent.Blob? ==> x.copiedAt <= s.persistent.mtime))
    && (x.pc == Sweep ==> s.moved)
  }

  predicate ProcInv(c: Config, now: int, s: Slot, p: nat, x: Proc) {
    Shape(x) && Ownership(c, now, s, p, x) && Knowledge(s, x) && Aftermath(c, now, s, p, x)
  }

  predicate JobInv(c: Config, now: int, s: Slot) {
    s.job != NoJob ==>
      && s.lease.Lease? && s.lease.owner == c.gc && now < s.lease.expires
      && (s.job.Claimed? ==> s.job.start <= now)
      && !Marks(s.job, NoPlace)
      && (s.job.Doomed? || s.job.Unlinking? ==> !IsReady(s))
      && (s.job == Unlinking(Persistent) ==> s.persistent.NoBlob?)
  }

  predicate HistoryInv(s: Slot) {
    && (s.moved ==> s.loc != Staging)
    && (s.loc == Persistent ==> s.moved)
    && (s.moved ==> s.linked)
    && (s.row.Row? ==> s.row.id in s.procs)
    && (s.copier.Some? && s.loc == Staging ==> IsReady(s) && s.row.id == s.copier.value)
  }

  predicate PassInv(c: Config, now: int, s: Slot) {
    s.pass.Pass? ==>
      && s.pass.cutoff <= now - c.grace
      && (s.loc == Persistent && s.persistent.Blob? && !s.pass.referenced ==>
            s.pass.cutoff < s.persistent.mtime)
  }

  predicate SlotInv(c: Config, now: int, s: Slot) {
    && (!s.issued ==> s == EMPTY)
    && BytesKept(s)
    && JobInv(c, now, s)
    && HistoryInv(s)
    && PassInv(c, now, s)
  }

  ghost predicate Inv(c: Config, now: int, s: Slot) {
    && SlotInv(c, now, s)
    && forall p :: p in s.procs ==> ProcInv(c, now, s, p, s.procs[p])
  }

  /** The invariant for everybody but p. */
  ghost predicate InvBut(c: Config, now: int, s: Slot, p: nat) {
    && SlotInv(c, now, s)
    && forall q :: q in s.procs && q != p ==> ProcInv(c, now, s, q, s.procs[q])
  }

  /** Request p is about to make call pc, in a state where the invariant holds. */
  ghost predicate At(c: Config, now: int, s: Slot, p: nat, pc: Pc) {
    && WellFormed(c) && Sound(c) && Inv(c, now, s)
    && s.issued && p in s.procs && s.procs[p].pc == pc
    && (c.gcAtomic ==> s.job == NoJob)
  }

  /** Once the others are content with what a call did, so they are with the caller's own state. */
  lemma Resumed(c: Config, now: int, s: Slot, p: nat, y: Proc, seen: seq<Seen>)
    requires InvBut(c, now, s, p) && s.issued && ProcInv(c, now, s, p, y)
    ensures Inv(c, now, Put(s, p, y).(seen := seen))
  {
    var t := Put(s, p, y).(seen := seen);
    forall q | q in t.procs ensures ProcInv(c, now, t, q, t.procs[q]) {
      if q != p { assert ProcInv(c, now, s, q, s.procs[q]); }
    }
  }

  /** A call that has done t to the shared state. */
  lemma Stepped(c: Config, now: int, s: Slot, p: nat, r: Reply, t: Slot, y: Proc)
    requires p in s.procs && s.issued
    requires t == Effect(c, now, s, p, s.procs[p], r) && y == After(now, s, p, s.procs[p], r)
    requires t.issued && InvBut(c, now, t, p) && ProcInv(c, now, t, p, y)
    ensures Inv(c, now, Step(c, now, s, p, r))
  {
    Resumed(c, now, t, p, y, Announced(s, s.procs[p], y));
  }

  lemma CheckKeeps(c: Config, now: int, s: Slot, p: nat, r: Reply)
    requires At(c, now, s, p, Check)
    ensures Inv(c, now, Step(c, now, s, p, r))
  {
    var x := s.procs[p];
    assert ProcInv(c, now, s, p, x);
    Stepped(c, now, s, p, r, s, After(now, s, p, x, r));
  }

  /** A fresh claiming row disturbs nobody else. */
  lemma RowInserted(c: Config, now: int, s: Slot, p: nat)
    requires Inv(c, now, s) && s.issued && s.row == NoRow && p in s.procs
    ensures InvBut(c, now, s.(row := Row(p, Claiming, now, "")), p)
  {
    var t := s.(row := Row(p, Claiming, now, ""));
    forall q | q in t.procs && q != p ensures ProcInv(c, now, t, q, t.procs[q]) {
      assert ProcInv(c, now, s, q, s.procs[q]);
    }
  }

  lemma ClaimDoes(c: Config, now: int, s: Slot, p: nat, x: Proc, r: Reply)
    requires x.pc.Claim? && !x.forsaken
    ensures var won := Effective(r) && s.row.NoRow?;
      && Effect(c, now, s, p, x, r) == (if won then s.(row := Row(p, Claiming, now, "")) else s)
      && After(now, s, p, x, r) ==
           if won && r == Answer then x.(pc := Renew, claimedAt := now)
           else if won then x.(pc := Done, outcome := Failed, claimedAt := now, forsaken := true)
           else if r != Answer then x.(pc := Done, outcome := Failed, claimedAt := now)
           else if IsReady(s) then x.(pc := Done, outcome := Existing(s.row.id), claimedAt := now)
           else x.(pc := Wait, claimedAt := now)
  {}

  lemma WinnerFits(c: Config, now: int, s: Slot, p: nat, y: Proc)
    requires At(c, now, s, p, Claim) && s.row.NoRow?
    requires var x := s.procs[p];
      || y == x.(pc := Renew, claimedAt := now)
      || y == x.(pc := Done, outcome := Failed, claimedAt := now, forsaken := true)
    ensures ProcInv(c, now, s.(row := Row(p, Claiming, now, "")), p, y)
  {
    assert ProcInv(c, now, s, p, s.procs[p]);
  }

  lemma OtherFits(c: Config, now: int, s: Slot, p: nat, y: Proc)
    requires At(c, now, s, p, Claim)
    requires var x := s.procs[p];
      || y == x.(pc := Wait, claimedAt := now)
      || y == x.(pc := Done, outcome := y.outcome, claimedAt := now)
    ensures ProcInv(c, now, s, p, y)
  {
    assert ProcInv(c, now, s, p, s.procs[p]);
  }

  lemma ClaimKeeps(c: Config, now: int, s: Slot, p: nat, r: Reply)
    requires At(c, now, s, p, Claim)
    ensures Inv(c, now, Step(c, now, s, p, r))
  {
    var x := s.procs[p];
    var y := After(now, s, p, x, r);
    assert !x.forsaken by { assert ProcInv(c, now, s, p, x); }
    ClaimDoes(c, now, s, p, x, r);
    if Effective(r) && s.row.NoRow? {
      RowInserted(c, now, s, p);
      WinnerFits(c, now, s, p, y);
      Stepped(c, now, s, p, r, s.(row := Row(p, Claiming, now, "")), y);
    } else {
      OtherFits(c, now, s, p, y);
      Stepped(c, now, s, p, r, s, y);
    }
  }

  lemma WaitKeeps(c: Config, now: int, s: Slot, p: nat, r: Reply)
    requires At(c, now, s, p, Wait)
    ensures Inv(c, now, Step(c, now, s, p, r))
  {
    var x := s.procs[p];
    assert ProcInv(c, now, s, p, x);
    Stepped(c, now, s, p, r, s, After(now, s, p, x, r));
  }

  /** Renewing a lease one owns keeps it live for every request of the same instance. */
  lemma LeaseExtended(c: Config, now: int, s: Slot, p: nat)
    requires WellFormed(c) && Sound(c) && Inv(c, now, s) && s.issued
    requires p in s.procs && (c.gcAtomic ==> s.job == NoJob) && Holds(s, s.procs[p])
    ensures Inv(c, now, s.(lease := Lease(s.procs[p].inst, now + c.ttl)))
  {
    var t := s.(lease := Lease(s.procs[p].inst, now + c.ttl));
    assert ProcInv(c, now, s, p, s.procs[p]);
    forall q | q in t.procs ensures ProcInv(c, now, t, q, t.procs[q]) {
      assert ProcInv(c, now, s, q, s.procs[q]);
    }
  }

  /** Releasing a lease one owns takes nothing from GC. */
  lemma LeaseReleased(c: Config, now: int, s: Slot, p: nat)
    requires WellFormed(c) && Sound(c) && Inv(c, now, s) && s.issued
    requires p in s.procs && (c.gcAtomic ==> s.job == NoJob) && Holds(s, s.procs[p])
    ensures Inv(c, now, s.(lease := NoLease))
  {
    var t := s.(lease := NoLease);
    assert ProcInv(c, now, s, p, s.procs[p]);
    forall q | q in t.procs ensures ProcInv(c, now, t, q, t.procs[q]) {
      assert ProcInv(c, now, s, q, s.procs[q]);
    }
  }

  lemma RenewDoes(c: Config, now: int, s: Slot, p: nat, x: Proc, r: Reply)
    requires x.pc.Renew?
    ensures Effect(c, now, s, p, x, r) ==
      if Effective(r) && Holds(s, x) then s.(lease := Lease(x.inst, now + c.ttl)) else s
    ensures After(now, s, p, x, r) ==
      var b := if Effective(r) && Holds(s, x) then now else x.beat;
      if r != Answer then x.(pc := Unclaim, beat := b)
      else if Holds(s, x) then x.(pc := Arm, guarded := true, beat := b) else x.(pc := Acquire, beat := b)
  {}

  /** With the lease just taken the request may go on; without it, it may try or give up. */
  lemma LeaseFits(c: Config, now: int, s: Slot, p: nat, taken: bool, y: Proc)
    requires WellFormed(c) && Inv(c, now, s) && p in s.procs && (s.procs[p].pc.Renew? || s.procs[p].pc.Acquire?)
    requires var x := s.procs[p];
      || y == x.(pc := Unclaim, beat := y.beat) || y == x.(pc := Acquire, beat := y.beat)
      || (taken && s.job == NoJob && y == x.(pc := Arm, guarded := true, beat := now))
    ensures ProcInv(c, now, if taken then s.(lease := Lease(y.inst, now + c.ttl)) else s, p, y)
  {
    assert ProcInv(c, now, s, p, s.procs[p]);
  }

  lemma RenewKeeps(c: Config, now: int, s: Slot, p: nat, r: Reply)
    requires At(c, now, s, p, Renew)
    ensures Inv(c, now, Step(c, now, s, p, r))
  {
    var x := s.procs[p];
    var y := After(now, s, p, x, r);
    RenewDoes(c, now, s, p, x, r);
    if Effective(r) && Holds(s, x) {
      assert s.job == NoJob by { assert ProcInv(c, now, s, p, x); }
      LeaseExtended(c, now, s, p);
      LeaseFits(c, now, s, p, true, y);
      Stepped(c, now, s, p, r, s.(lease := Lease(x.inst, now + c.ttl)), y);
    } else {
      LeaseFits(c, now, s, p, false, y);
      Stepped(c, now, s, p, r, s, y);
    }
  }

  /** The claim holder may take a free lease. */
  lemma LeaseAcquired(c: Config, now: int, s: Slot, p: nat)
    requires At(c, now, s, p, Acquire) && Vacant(now, s)
    ensures InvBut(c, now, s.(lease := Lease(s.procs[p].inst, now + c.ttl)), p)
  {
    var t := s.(lease := Lease(s.procs[p].inst, now + c.ttl));
    assert ProcInv(c, now, s, p, s.procs[p]);
    assert SlotInv(c, now, t);
    forall q | q in t.procs && q != p ensures ProcInv(c, now, t, q, t.procs[q]) {
      assert ProcInv(c, now, s, q, s.procs[q]);
    }
  }

  lemma AcquireDoes(c: Config, now: int, s: Slot, p: nat, x: Proc, r: Reply)
    requires x.pc.Acquire?
    ensures var vacant := Vacant(now, s);
      && Effect(c, now, s, p, x, r) ==
           (if Effective(r) && vacant then s.(lease := Lease(x.inst, now + c.ttl)) else s)
      && After(now, s, p, x, r) ==
           var b := if Effective(r) && vacant then now else x.beat;
           if r == Answer && vacant then x.(pc := Arm, guarded := true, beat := b) else x.(pc := Unclaim, beat := b)
  {}

  lemma AcquireKeeps(c: Config, now: int, s: Slot, p: nat, r: Reply)
    requires At(c, now, s, p, Acquire)
    ensures Inv(c, now, Step(c, now, s, p, r))
  {
    var x := s.procs[p];
    var y := After(now, s, p, x, r);
    AcquireDoes(c, now, s, p, x, r);
    if Effective(r) && Vacant(now, s) {
      LeaseAcquired(c, now, s, p);
      LeaseFits(c, now, s, p, true, y);
      Stepped(c, now, s, p, r, s.(lease := Lease(x.inst, now + c.ttl)), y);
    } else {
      LeaseFits(c, now, s, p, false, y);
      Stepped(c, now, s, p, r, s, y);
    }
  }

  lemma ArmKeeps(c: Config, now: int, s: Slot, p: nat, r: Reply)
    requires At(c, now, s, p, Arm)
    ensures Inv(c, now, Step(c, now, s, p, r))
  {
    var x := s.procs[p];
    assert ProcInv(c, now, s, p, x);
    Stepped(c, now, s, p, r, s, After(now, s, p, x, r));
  }

  lemma FindDoes(c: Config, now: int, s: Slot, p: nat, x: Proc, r: Reply)
    requires x.pc.Find? && !x.forsaken
    ensures Effect(c, now, s, p, x, r) == s
    ensures After(now, s, p, x, r) ==
      if s.loc == NoPlace || !(r == Answer || r == Unresolved) then x.(pc := Unclaim)
      else if r == Unresolved || !s.linked then x.(pc := Free, outcome := Failed, forsaken := true)
      else x.(pc := if s.loc == Staging then Copy else Stat, found := s.loc)
  {}

  lemma FindFits(c: Config, now: int, s: Slot, p: nat, y: Proc)
    requires At(c, now, s, p, Find)
    requires var x := s.procs[p];
      || y == x.(pc := Unclaim)
      || y == x.(pc := Free, outcome := Failed, forsaken := true)
      || (s.loc != NoPlace && s.linked && y == x.(pc := if s.loc == Staging then Copy else Stat, found := s.loc))
    ensures ProcInv(c, now, s, p, y)
  {
    assert ProcInv(c, now, s, p, s.procs[p]);
  }

  lemma FindKeeps(c: Config, now: int, s: Slot, p: nat, r: Reply)
    requires At(c, now, s, p, Find)
    ensures Inv(c, now, Step(c, now, s, p, r))
  {
    var x := s.procs[p];
    assert !x.forsaken by { assert ProcInv(c, now, s, p, x); }
    FindDoes(c, now, s, p, x, r);
    FindFits(c, now, s, p, After(now, s, p, x, r));
    Stepped(c, now, s, p, r, s, After(now, s, p, x, r));
  }

  /** The claim holder may overwrite the persistent object. */
  lemma ObjectCopied(c: Config, now: int, s: Slot, p: nat)
    requires At(c, now, s, p, Copy) && s.staging.Blob?
    ensures InvBut(c, now, s.(persistent := Blob(s.staging.data, now)), p)
  {
    var t := s.(persistent := Blob(s.staging.data, now));
    assert ProcInv(c, now, s, p, s.procs[p]);
    assert SlotInv(c, now, t);
    forall q | q in t.procs && q != p ensures ProcInv(c, now, t, q, t.procs[q]) {
      assert ProcInv(c, now, s, q, s.procs[q]);
    }
  }

  lemma CopyKeeps(c: Config, now: int, s: Slot, p: nat, r: Reply)
    requires At(c, now, s, p, Copy)
    ensures Inv(c, now, Step(c, now, s, p, r))
  {
    var x := s.procs[p];
    var t := Effect(c, now, s, p, x, r);
    var y := After(now, s, p, x, r);
    assert ProcInv(c, now, s, p, x);
    if Effective(r) && s.staging.Blob? { ObjectCopied(c, now, s, p); }
    assert ProcInv(c, now, t, p, y);
    Stepped(c, now, s, p, r, t, y);
  }

  lemma StatKeeps(c: Config, now: int, s: Slot, p: nat, r: Reply)
    requires At(c, now, s, p, Stat)
    ensures Inv(c, now, Step(c, now, s, p, r))
  {
    var x := s.procs[p];
    assert ProcInv(c, now, s, p, x);
    Stepped(c, now, s, p, r, s, After(now, s, p, x, r));
  }

  /** The claim is held, so no record can be ready, and the request goes on to roll back. */
  lemma RereadKeeps(c: Config, now: int, s: Slot, p: nat, r: Reply)
    requires At(c, now, s, p, Reread)
    ensures Inv(c, now, Step(c, now, s, p, r))
  {
    var x := s.procs[p];
    assert ProcInv(c, now, s, p, x);
    assert After(now, s, p, x, r) == x.(pc := RbCheck);
    Stepped(c, now, s, p, r, s, x.(pc := RbCheck));
  }

  lemma SumKeeps(c: Config, now: int, s: Slot, p: nat, r: Reply)
    requires At(c, now, s, p, Sum)
    ensures Inv(c, now, Step(c, now, s, p, r))
  {
    var x := s.procs[p];
    assert ProcInv(c, now, s, p, x);
    Stepped(c, now, s, p, r, s, After(now, s, p, x, r));
  }

  /** The commit disturbs nobody else. */
  lemma RowCommitted(c: Config, now: int, s: Slot, p: nat, r: Reply)
    requires At(c, now, s, p, Mark) && Commits(s, p, s.procs[p], r)
    ensures InvBut(c, now, Effect(c, now, s, p, s.procs[p], r), p)
  {
    var t := Effect(c, now, s, p, s.procs[p], r);
    assert ProcInv(c, now, s, p, s.procs[p]);
    assert SlotInv(c, now, t);
    forall q | q in t.procs && q != p ensures ProcInv(c, now, t, q, t.procs[q]) {
      assert ProcInv(c, now, s, q, s.procs[q]);
    }
  }

  lemma MarkKeeps(c: Config, now: int, s: Slot, p: nat, r: Reply)
    requires At(c, now, s, p, Mark)
    ensures Inv(c, now, Step(c, now, s, p, r))
  {
    var x := s.procs[p];
    var t := Effect(c, now, s, p, x, r);
    var y := After(now, s, p, x, r);
    assert ProcInv(c, now, s, p, x);
    if Commits(s, p, x, r) {
      RowCommitted(c, now, s, p, r);
      assert y == if r == Answer then x.(pc := Free, outcome := Created(p), committed := true)
                  else x.(pc := RbCheck, committed := true);
    } else {
      assert y == x.(pc := RbCheck);
    }
    assert ProcInv(c, now, t, p, y);
    Stepped(c, now, s, p, r, t, y);
  }

  lemma RbCheckKeeps(c: Config, now: int, s: Slot, p: nat, r: Reply)
    requires At(c, now, s, p, RbCheck) && r == Answer
    ensures Inv(c, now, Step(c, now, s, p, r))
  {
    var x := s.procs[p];
    assert ProcInv(c, now, s, p, x);
    Stepped(c, now, s, p, r, s, After(now, s, p, x, r));
  }

  /** The rollback removes an object that no ready record needs. */
  lemma ObjectRolledBack(c: Config, now: int, s: Slot, p: nat)
    requires At(c, now, s, p, RbRemove)
    ensures InvBut(c, now, s.(persistent := NoBlob), p)
  {
    var t := s.(persistent := NoBlob);
    assert ProcInv(c, now, s, p, s.procs[p]);
    assert SlotInv(c, now, t);
    forall q | q in t.procs && q != p ensures ProcInv(c, now, t, q, t.procs[q]) {
      assert ProcInv(c, now, s, q, s.procs[q]);
    }
  }

  lemma RbRemoveDoes(c: Config, now: int, s: Slot, p: nat, x: Proc, r: Reply)
    requires x.pc.RbRemove?
    ensures Effect(c, now, s, p, x, r) == if Effective(r) then s.(persistent := NoBlob) else s
    ensures After(now, s, p, x, r) == x.(pc := Unclaim)
  {}

  lemma RbRemoveFits(c: Config, now: int, s: Slot, p: nat)
    requires At(c, now, s, p, RbRemove)
    ensures var y := s.procs[p].(pc := Unclaim);
      ProcInv(c, now, s, p, y) && ProcInv(c, now, s.(persistent := NoBlob), p, y)
  {
    assert ProcInv(c, now, s, p, s.procs[p]);
  }

  lemma RbRemoveKeeps(c: Config, now: int, s: Slot, p: nat, r: Reply)
    requires At(c, now, s, p, RbRemove)
    ensures Inv(c, now, Step(c, now, s, p, r))
  {
    var x := s.procs[p];
    RbRemoveDoes(c, now, s, p, x, r);
    RbRemoveFits(c, now, s, p);
    if Effective(r) {
      ObjectRolledBack(c, now, s, p);
      Stepped(c, now, s, p, r, s.(persistent := NoBlob), x.(pc := Unclaim));
    } else {
      Stepped(c, now, s, p, r, s, x.(pc := Unclaim));
    }
  }

  /** Nobody else depends on a claiming row that its request gives up. */
  lemma RowReleased(c: Config, now: int, s: Slot, p: nat)
    requires Inv(c, now, s) && s.issued && ClaimedBy(s, p)
    ensures InvBut(c, now, s.(row := NoRow), p)
  {
    var t := s.(row := NoRow);
    forall q | q in t.procs && q != p ensures ProcInv(c, now, t, q, t.procs[q]) {
      assert ProcInv(c, now, s, q, s.procs[q]);
    }
  }

  lemma UnclaimDoes(c: Config, now: int, s: Slot, p: nat, x: Proc, r: Reply)
    requires x.pc.Unclaim? && !x.forsaken
    ensures Effect(c, now, s, p, x, r) == if Effective(r) && ClaimedBy(s, p) then s.(row := NoRow) else s
    ensures After(now, s, p, x, r) ==
      x.(pc := if x.guarded then Free else Done, outcome := Failed, forsaken := !Effective(r) && !x.committed)
  {}

  lemma UnclaimFits(c: Config, now: int, s: Slot, p: nat, works: bool)
    requires At(c, now, s, p, Unclaim)
    ensures var x := s.procs[p];
      ProcInv(c, now, if works && ClaimedBy(s, p) then s.(row := NoRow) else s, p,
              x.(pc := if x.guarded then Free else Done, outcome := Failed, forsaken := !works && !x.committed))
  {
    assert ProcInv(c, now, s, p, s.procs[p]);
  }

  lemma UnclaimKeeps(c: Config, now: int, s: Slot, p: nat, r: Reply)
    requires At(c, now, s, p, Unclaim)
    ensures Inv(c, now, Step(c, now, s, p, r))
  {
    var x := s.procs[p];
    var y := x.(pc := if x.guarded then Free else Done, outcome := Failed, forsaken := !Effective(r) && !x.committed);
    assert !x.forsaken by { assert ProcInv(c, now, s, p, x); }
    UnclaimDoes(c, now, s, p, x, r);
    UnclaimFits(c, now, s, p, Effective(r));
    if Effective(r) && ClaimedBy(s, p) {
      RowReleased(c, now, s, p);
      Stepped(c, now, s, p, r, s.(row := NoRow), y);
    } else {
      Stepped(c, now, s, p, r, s, y);
    }
  }

  lemma FreeDoes(c: Config, now: int, s: Slot, p: nat, x: Proc, r: Reply)
    requires x.pc.Free?
    ensures Effect(c, now, s, p, x, r) == if Effective(r) && Holds(s, x) then s.(lease := NoLease) else s
    ensures After(now, s, p, x, r) == x.(pc := if x.outcome.Created? then Save else Done)
  {}

  lemma FreeFits(c: Config, now: int, s: Slot, p: nat, freed: bool)
    requires At(c, now, s, p, Free)
    ensures var x := s.procs[p];
      ProcInv(c, now, if freed then s.(lease := NoLease) else s, p, x.(pc := if x.outcome.Created? then Save else Done))
  {
    assert ProcInv(c, now, s, p, s.procs[p]);
  }

  lemma FreeKeeps(c: Config, now: int, s: Slot, p: nat, r: Reply)
    requires At(c, now, s, p, Free)
    ensures Inv(c, now, Step(c, now, s, p, r))
  {
    var x := s.procs[p];
    var y := x.(pc := if x.outcome.Created? then Save else Done);
    FreeDoes(c, now, s, p, x, r);
    if Effective(r) && Holds(s, x) {
      LeaseReleased(c, now, s, p);
      FreeFits(c, now, s, p, true);
      Stepped(c, now, s, p, r, s.(lease := NoLease), y);
    } else {
      FreeFits(c, now, s, p, false);
      Stepped(c, now, s, p, r, s, y);
    }
  }

  /** The location now points to the persistent object. */
  lemma LocationSaved(c: Config, now: int, s: Slot, p: nat)
    requires At(c, now, s, p, Save)
    ensures InvBut(c, now, s.(loc := Persistent, linked := true, moved := true), p)
  {
    var t := s.(loc := Persistent, linked := true, moved := true);
    assert ProcInv(c, now, s, p, s.procs[p]);
    assert SlotInv(c, now, t);
    forall q | q in t.procs && q != p ensures ProcInv(c, now, t, q, t.procs[q]) {
      assert ProcInv(c, now, s, q, s.procs[q]);
    }
  }

  lemma SaveFits(c: Config, now: int, s: Slot, p: nat)
    requires At(c, now, s, p, Save)
    ensures var x := s.procs[p];
      ProcInv(c, now, s.(loc := Persistent, linked := true, moved := true), p,
              x.(pc := if x.found == Staging then Sweep else Done))
  {
    assert ProcInv(c, now, s, p, s.procs[p]);
  }

  lemma SaveKeeps(c: Config, now: int, s: Slot, p: nat, r: Reply)
    requires At(c, now, s, p, Save) && Effective(r)
    ensures Inv(c, now, Step(c, now, s, p, r))
  {
    var x := s.procs[p];
    LocationSaved(c, now, s, p);
    SaveFits(c, now, s, p);
    Stepped(c, now, s, p, r, s.(loc := Persistent, linked := true, moved := true),
            x.(pc := if x.found == Staging then Sweep else Done));
  }

  lemma StagingSwept(c: Config, now: int, s: Slot, p: nat)
    requires At(c, now, s, p, Sweep)
    ensures InvBut(c, now, s.(staging := NoBlob), p)
  {
    var t := s.(staging := NoBlob);
    assert ProcInv(c, now, s, p, s.procs[p]);
    assert SlotInv(c, now, t);
    forall q | q in t.procs && q != p ensures ProcInv(c, now, t, q, t.procs[q]) {
      assert ProcInv(c, now, s, q, s.procs[q]);
    }
  }

  lemma SweepKeeps(c: Config, now: int, s: Slot, p: nat, r: Reply)
    requires At(c, now, s, p, Sweep)
    ensures Inv(c, now, Step(c, now, s, p, r))
  {
    var x := s.procs[p];
    assert ProcInv(c, now, s, p, x);
    assert After(now, s, p, x, r) == x.(pc := Done);
    if Effective(r) {
      StagingSwept(c, now, s, p);
      Stepped(c, now, s, p, r, s.(staging := NoBlob), x.(pc := Done));
    } else {
      Stepped(c, now, s, p, r, s, x.(pc := Done));
    }
  }
}
