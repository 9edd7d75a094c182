/**
  A create that nobody interferes with: it either registers exactly the uploaded bytes, or leaves
  the FileSource as it found it and free to be created again.
*/
module SoloCreate {
  import opened Base
  import opened Registration
  import opened CreateMetadata

  /** Each call meets what the one before it left, and no time runs backwards. */
  predicate Solo(c: Config, p: nat, log: seq<Turn>) {
    && AllPresent(p, log)
    && (forall i, j | 0 <= i && j == i + 1 < |log| ::
          log[j].before == Left(c, p, log[i]) && log[i].now <= log[j].now)
  }

  /** What a call leaves behind. */
  function Left(c: Config, p: nat, t: Turn): Slot
    requires Present(p, t)
  {
    Step(c, t.now, t.before, p, t.reply)
  }

  /** Request p of instance i has just arrived at a source with an upload that nobody claims and
      whose lease is vacant or its own. */
  predicate Open(now: int, s: Slot, p: nat, i: nat) {
    && p in s.procs && s.procs[p] == Newcomer(i)
    && s.row.NoRow? && s.loc != NoPlace && s.linked && Object(s, s.loc).Blob?
    && (Vacant(now, s) || s.lease.owner == i)
  }

  predicate CleansUp(pc: Pc) { pc.RbRemove? || pc.Unclaim? || pc.Free? || pc.Save? || pc.Sweep? }

  /** A call that fails has no effect, and the calls that clean up do not fail. */
  predicate Mannered(p: nat, t: Turn)
    requires Present(p, t)
  {
    t.reply == Answer || (t.reply == Fault && !CleansUp(t.before.procs[p].pc))
  }

  // ---------------------------------------------------------------------------
  //  What holds before each call
  // ---------------------------------------------------------------------------

  /** The location, the staging object and the ids handed out have not changed. */
  predicate Alike(a: Slot, s: Slot) {
    && s.loc == a.loc && s.linked == a.linked && s.staging == a.staging && s.seen == a.seen
  }

  predicate Mine(s: Slot, p: nat) { ClaimedBy(s, p) }

  predicate Leased(s: Slot, x: Proc) { x.guarded && s.lease.Lease? && s.lease.owner == x.inst }

  /** Before the copy. */
  predicate Early(a: Slot, s: Slot, p: nat, x: Proc) {
    && Alike(a, s) && s.persistent == a.persistent && x.outcome == Pending && !x.committed && !x.lost
    && (x.pc.Check? || x.pc.Claim? ==> s.row.NoRow? && !x.guarded && s.lease == a.lease)
    && (x.pc.Renew? || x.pc.Acquire? ==> Mine(s, p) && !x.guarded && s.lease == a.lease)
    && (x.pc.Acquire? ==> !Holds(s, x))
    && (x.pc.Arm? || x.pc.Find? || x.pc.Copy? || x.pc.Stat? || x.pc.Reread? ==> Mine(s, p) && Leased(s, x))
    && (x.pc.Copy? || x.pc.Reread? ==> x.found == Staging == a.loc)
    && (x.pc.Stat? ==> x.found == Persistent == a.loc)
  }

  /** The object is in the persistent zone; the record is not ready yet. */
  predicate Middle(a: Slot, s: Slot, p: nat, x: Proc)
    requires Object(a, a.loc).Blob?
  {
    && Alike(a, s) && Mine(s, p) && Leased(s, x) && x.outcome == Pending && !x.committed && !x.lost
    && x.found == a.loc && s.persistent.Blob? && s.persistent.data == Object(a, a.loc).data
    && (x.pc.Mark? ==> x.sum == Object(a, a.loc).data)
  }

  /** The object is rolled back or about to be. */
  predicate Backing(a: Slot, s: Slot, p: nat, x: Proc) {
    && Alike(a, s) && Mine(s, p) && x.outcome == Pending && !x.committed
    && (if x.guarded then Leased(s, x) else s.lease == a.lease)
    && (x.pc.RbCheck? || x.pc.RbRemove? ==> x.guarded)
    && (x.pc.Unclaim? ==> s.persistent == a.persistent || s.persistent == NoBlob)
  }

  /** Nothing is left of the attempt but the lease it has to release. */
  predicate Undone(a: Slot, s: Slot, p: nat, x: Proc) {
    && Alike(a, s) && s.row.NoRow? && x.outcome == Failed
    && (s.persistent == a.persistent || s.persistent == NoBlob)
    && (if x.pc.Free? then Leased(s, x) else s.lease == NoLease || s.lease == a.lease)
  }

  /** The record is ready with the uploaded content. */
  predicate Registered(a: Slot, s: Slot, p: nat, x: Proc)
    requires Object(a, a.loc).Blob?
  {
    && x.outcome == Created(p) && x.found == a.loc
    && s.row.Row? && s.row.id == p && s.row.state == Ready && s.row.sum == Object(a, a.loc).data
    && s.persistent.Blob? && s.persistent.data == Object(a, a.loc).data
    && s.linked && s.seen == a.seen + [Returned(p)] && (x.pc.Sweep? ==> a.loc == Staging)
    && s.loc == (if x.pc.Free? || x.pc.Save? then a.loc else Persistent)
    && s.staging == (if x.pc.Done? && a.loc == Staging then NoBlob else a.staging)
    && (if x.pc.Free? then Leased(s, x) else s.lease == NoLease)
  }

  /** What holds before (or after) a call of the request that arrived at a. */
  predicate Course(a: Slot, s: Slot, p: nat, x: Proc)
    requires Object(a, a.loc).Blob?
  {
    match x.pc
    case Check | Claim | Renew | Acquire | Arm | Find | Copy | Stat | Reread => Early(a, s, p, x)
    case Sum | Mark => Middle(a, s, p, x)
    case RbCheck | RbRemove | Unclaim => Backing(a, s, p, x)
    case Free | Done => Undone(a, s, p, x) || Registered(a, s, p, x)
    case Save | Sweep => Registered(a, s, p, x)
    case _ => false
  }

  /** On the way to a record, if every call answers. */
  predicate Forward(x: Proc) {
    if x.pc.Free? || x.pc.Done? then x.outcome.Created?
    else !x.pc.Reread? && !x.pc.RbCheck? && !x.pc.RbRemove? && !x.pc.Unclaim?
  }

  // ---------------------------------------------------------------------------
  //  One call
  // ---------------------------------------------------------------------------

  /** The request that arrived at a, and is now in state x, is about to make its next call. */
  predicate Due(a: Slot, now: int, x: Proc, r: Reply) {
    && a.loc != NoPlace && a.linked && Object(a, a.loc).Blob?
    && (Vacant(now, a) || a.lease.owner == x.inst)
    && (r == Answer || (r == Fault && !CleansUp(x.pc)))
  }

  /** The shared state after the call. */
  function Then(c: Config, now: int, s: Slot, p: nat, x: Proc, r: Reply): Slot {
    Effect(c, now, s, p, x, r).(seen := Announced(s, x, After(now, s, p, x, r)))
  }

  lemma CheckGoes(c: Config, a: Slot, now: int, s: Slot, p: nat, x: Proc, r: Reply)
    requires Due(a, now, x, r) && x.pc.Check? && Early(a, s, p, x)
    ensures var u, y := Then(c, now, s, p, x, r), After(now, s, p, x, r);
      y.pc.Claim? && Early(a, u, p, y)
  {}

  lemma ClaimGoes(c: Config, a: Slot, now: int, s: Slot, p: nat, x: Proc, r: Reply)
    requires Due(a, now, x, r) && x.pc.Claim? && Early(a, s, p, x)
    ensures var u, y := Then(c, now, s, p, x, r), After(now, s, p, x, r);
      if r == Answer then y.pc.Renew? && Early(a, u, p, y) else y.pc.Done? && Undone(a, u, p, y)
  {}

  lemma RenewGoes(c: Config, a: Slot, now: int, s: Slot, p: nat, x: Proc, r: Reply)
    requires Due(a, now, x, r) && x.pc.Renew? && Early(a, s, p, x)
    ensures var u, y := Then(c, now, s, p, x, r), After(now, s, p, x, r);
      if r == Answer then (y.pc.Arm? || y.pc.Acquire?) && Early(a, u, p, y) else y.pc.Unclaim? && Backing(a, u, p, y)
  {}

  lemma AcquireGoes(c: Config, a: Slot, now: int, s: Slot, p: nat, x: Proc, r: Reply)
    requires Due(a, now, x, r) && x.pc.Acquire? && Early(a, s, p, x)
    ensures var u, y := Then(c, now, s, p, x, r), After(now, s, p, x, r);
      if r == Answer then y.pc.Arm? && Early(a, u, p, y) else y.pc.Unclaim? && Backing(a, u, p, y)
  {}

  lemma ArmGoes(c: Config, a: Slot, now: int, s: Slot, p: nat, x: Proc, r: Reply)
    requires Due(a, now, x, r) && x.pc.Arm? && Early(a, s, p, x)
    ensures var u, y := Then(c, now, s, p, x, r), After(now, s, p, x, r);
      if r == Answer then y.pc.Find? && Early(a, u, p, y) else y.pc.Unclaim? && Backing(a, u, p, y)
  {}

  lemma FindGoes(c: Config, a: Slot, now: int, s: Slot, p: nat, x: Proc, r: Reply)
    requires Due(a, now, x, r) && x.pc.Find? && Early(a, s, p, x)
    ensures var u, y := Then(c, now, s, p, x, r), After(now, s, p, x, r);
      if r == Answer then (y.pc.Copy? || y.pc.Stat?) && Early(a, u, p, y) else y.pc.Unclaim? && Backing(a, u, p, y)
  {}

  lemma CopyGoes(c: Config, a: Slot, now: int, s: Slot, p: nat, x: Proc, r: Reply)
    requires Due(a, now, x, r) && x.pc.Copy? && Early(a, s, p, x)
    ensures var u, y := Then(c, now, s, p, x, r), After(now, s, p, x, r);
      if r == Answer then y.pc.Sum? && Middle(a, u, p, y) else y.pc.Reread? && Early(a, u, p, y)
  {}

  lemma StatGoes(c: Config, a: Slot, now: int, s: Slot, p: nat, x: Proc, r: Reply)
    requires Due(a, now, x, r) && x.pc.Stat? && Early(a, s, p, x)
    ensures var u, y := Then(c, now, s, p, x, r), After(now, s, p, x, r);
      if r == Answer then y.pc.Sum? && Middle(a, u, p, y) else y.pc.RbCheck? && Backing(a, u, p, y)
  {}

  lemma RereadGoes(c: Config, a: Slot, now: int, s: Slot, p: nat, x: Proc, r: Reply)
    requires Due(a, now, x, r) && x.pc.Reread? && Early(a, s, p, x)
    ensures var u, y := Then(c, now, s, p, x, r), After(now, s, p, x, r);
      y.pc.RbCheck? && Backing(a, u, p, y)
  {}

  lemma SumGoes(c: Config, a: Slot, now: int, s: Slot, p: nat, x: Proc, r: Reply)
    requires Due(a, now, x, r) && x.pc.Sum? && Middle(a, s, p, x)
    ensures var u, y := Then(c, now, s, p, x, r), After(now, s, p, x, r);
      if r == Answer then y.pc.Mark? && Middle(a, u, p, y) else y.pc.RbCheck? && Backing(a, u, p, y)
  {}

  lemma MarkGoes(c: Config, a: Slot, now: int, s: Slot, p: nat, x: Proc, r: Reply)
    requires Due(a, now, x, r) && x.pc.Mark? && Middle(a, s, p, x)
    ensures var u, y := Then(c, now, s, p, x, r), After(now, s, p, x, r);
      if r == Answer then y.pc.Free? && Registered(a, u, p, y) else y.pc.RbCheck? && Backing(a, u, p, y)
  {}

  lemma RbCheckGoes(c: Config, a: Slot, now: int, s: Slot, p: nat, x: Proc, r: Reply)
    requires Due(a, now, x, r) && x.pc.RbCheck? && Backing(a, s, p, x)
    ensures var u, y := Then(c, now, s, p, x, r), After(now, s, p, x, r);
      y.pc.RbRemove? && Backing(a, u, p, y)
  {}

  lemma RbRemoveGoes(c: Config, a: Slot, now: int, s: Slot, p: nat, x: Proc, r: Reply)
    requires Due(a, now, x, r) && x.pc.RbRemove? && Backing(a, s, p, x)
    ensures var u, y := Then(c, now, s, p, x, r), After(now, s, p, x, r);
      y.pc.Unclaim? && Backing(a, u, p, y)
  {}

  lemma UnclaimGoes(c: Config, a: Slot, now: int, s: Slot, p: nat, x: Proc, r: Reply)
    requires Due(a, now, x, r) && x.pc.Unclaim? && Backing(a, s, p, x)
    ensures var u, y := Then(c, now, s, p, x, r), After(now, s, p, x, r);
      (y.pc.Free? || y.pc.Done?) && Undone(a, u, p, y)
  {}

  lemma SaveGoes(c: Config, a: Slot, now: int, s: Slot, p: nat, x: Proc, r: Reply)
    requires Due(a, now, x, r) && x.pc.Save? && Registered(a, s, p, x)
    ensures var u, y := Then(c, now, s, p, x, r), After(now, s, p, x, r);
      (y.pc.Sweep? || y.pc.Done?) && Registered(a, u, p, y)
  {}

  lemma SweepGoes(c: Config, a: Slot, now: int, s: Slot, p: nat, x: Proc, r: Reply)
    requires Due(a, now, x, r) && x.pc.Sweep? && Registered(a, s, p, x)
    ensures var u, y := Then(c, now, s, p, x, r), After(now, s, p, x, r);
      y.pc.Done? && Registered(a, u, p, y)
  {}

  lemma FreeGoes(c: Config, a: Slot, now: int, s: Slot, p: nat, x: Proc, r: Reply)
    requires Due(a, now, x, r) && x.pc.Free?
    ensures var u, y := Then(c, now, s, p, x, r), After(now, s, p, x, r);
      && (Undone(a, s, p, x) ==> y.pc.Done? && Undone(a, u, p, y))
      && (Registered(a, s, p, x) ==> y.pc.Save? && Registered(a, u, p, y))
  {}

  /** It stays on course, and it is on the way to a record afterwards exactly if it was before and
      the call answered (the first read may fail). */
  predicate Goes(c: Config, a: Slot, now: int, s: Slot, p: nat, x: Proc, r: Reply)
    requires Object(a, a.loc).Blob?
  {
    var y := After(now, s, p, x, r);
    && Course(a, Then(c, now, s, p, x, r), p, y)
    && (Forward(y) <==> Forward(x) && (r == Answer || x.pc.Check?))
  }

  lemma ClaimCalls(c: Config, a: Slot, now: int, s: Slot, p: nat, x: Proc, r: Reply)
    requires Due(a, now, x, r) && Course(a, s, p, x) && (x.pc.Check? || x.pc.Claim?)
    ensures Goes(c, a, now, s, p, x, r)
  {
    if x.pc.Check? { CheckGoes(c, a, now, s, p, x, r); } else { ClaimGoes(c, a, now, s, p, x, r); }
  }

  lemma LeaseCalls(c: Config, a: Slot, now: int, s: Slot, p: nat, x: Proc, r: Reply)
    requires Due(a, now, x, r) && Course(a, s, p, x) && (x.pc.Renew? || x.pc.Acquire?)
    ensures Goes(c, a, now, s, p, x, r)
  {
    if x.pc.Renew? { RenewGoes(c, a, now, s, p, x, r); } else { AcquireGoes(c, a, now, s, p, x, r); }
  }

  lemma LocationCalls(c: Config, a: Slot, now: int, s: Slot, p: nat, x: Proc, r: Reply)
    requires Due(a, now, x, r) && Course(a, s, p, x) && (x.pc.Arm? || x.pc.Find?)
    ensures Goes(c, a, now, s, p, x, r)
  {
    if x.pc.Arm? { ArmGoes(c, a, now, s, p, x, r); } else { FindGoes(c, a, now, s, p, x, r); }
  }

  lemma ObjectCalls(c: Config, a: Slot, now: int, s: Slot, p: nat, x: Proc, r: Reply)
    requires Due(a, now, x, r) && Course(a, s, p, x) && (x.pc.Copy? || x.pc.Stat? || x.pc.Reread?)
    ensures Goes(c, a, now, s, p, x, r)
  {
    if x.pc.Copy? { CopyGoes(c, a, now, s, p, x, r); }
    if x.pc.Stat? { StatGoes(c, a, now, s, p, x, r); }
    if x.pc.Reread? { RereadGoes(c, a, now, s, p, x, r); }
  }

  lemma SumCalls(c: Config, a: Slot, now: int, s: Slot, p: nat, x: Proc, r: Reply)
    requires Due(a, now, x, r) && Course(a, s, p, x) && x.pc.Sum?
    ensures Goes(c, a, now, s, p, x, r)
  {
    SumGoes(c, a, now, s, p, x, r);
  }

  lemma MarkCalls(c: Config, a: Slot, now: int, s: Slot, p: nat, x: Proc, r: Reply)
    requires Due(a, now, x, r) && Course(a, s, p, x) && x.pc.Mark?
    ensures Goes(c, a, now, s, p, x, r)
  {
    MarkGoes(c, a, now, s, p, x, r);
  }

  lemma RollbackCalls(c: Config, a: Slot, now: int, s: Slot, p: nat, x: Proc, r: Reply)
    requires Due(a, now, x, r) && Course(a, s, p, x) && (x.pc.RbCheck? || x.pc.RbRemove? || x.pc.Unclaim?)
    ensures Goes(c, a, now, s, p, x, r)
  {
    if x.pc.RbCheck? { RbCheckGoes(c, a, now, s, p, x, r); }
    if x.pc.RbRemove? { RbRemoveGoes(c, a, now, s, p, x, r); }
    if x.pc.Unclaim? { UnclaimGoes(c, a, now, s, p, x, r); }
  }

  lemma LateCalls(c: Config, a: Slot, now: int, s: Slot, p: nat, x: Proc, r: Reply)
    requires Due(a, now, x, r) && Course(a, s, p, x) && (x.pc.Free? || x.pc.Save? || x.pc.Sweep?)
    ensures Goes(c, a, now, s, p, x, r)
  {
    if x.pc.Free? { FreeGoes(c, a, now, s, p, x, r); }
    if x.pc.Save? { SaveGoes(c, a, now, s, p, x, r); }
    if x.pc.Sweep? { SweepGoes(c, a, now, s, p, x, r); }
  }

  lemma CallGoes(c: Config, a: Slot, now: int, s: Slot, p: nat, x: Proc, r: Reply)
    requires Due(a, now, x, r) && Course(a, s, p, x) && !x.pc.Done?
    ensures Goes(c, a, now, s, p, x, r)
  {
    var pc := x.pc;
    if pc.Check? || pc.Claim? { ClaimCalls(c, a, now, s, p, x, r); }
    else if pc.Renew? || pc.Acquire? { LeaseCalls(c, a, now, s, p, x, r); }
    else if pc.Arm? || pc.Find? { LocationCalls(c, a, now, s, p, x, r); }
    else if pc.Copy? || pc.Stat? || pc.Reread? { ObjectCalls(c, a, now, s, p, x, r); }
    else if pc.Sum? { SumCalls(c, a, now, s, p, x, r); }
    else if pc.Mark? { MarkCalls(c, a, now, s, p, x, r); }
    else if pc.RbCheck? || pc.RbRemove? || pc.Unclaim? { RollbackCalls(c, a, now, s, p, x, r); }
    else { LateCalls(c, a, now, s, p, x, r); }
  }

  /** A turn of the request, and what it leaves behind. */
  lemma TurnGoes(c: Config, a: Slot, p: nat, t: Turn)
    requires Genuine(p, t) && Due(a, t.now, t.before.procs[p], t.reply) && Course(a, t.before, p, t.before.procs[p])
    ensures Course(a, Left(c, p, t), p, t.after)
    ensures Forward(t.after) <==> Forward(t.before.procs[p]) && (t.reply == Answer || t.before.procs[p].pc.Check?)
  {
    var x := t.before.procs[p];
    CallGoes(c, a, t.now, t.before, p, x, t.reply);
    ProcsApart(a, Then(c, t.now, t.before, p, x, t.reply), Left(c, p, t), p, t.after);
  }

  /** The course does not depend on who else is there. */
  lemma ProcsApart(a: Slot, s: Slot, t: Slot, p: nat, y: Proc)
    requires Object(a, a.loc).Blob? && Course(a, s, p, y) && t == s.(procs := t.procs)
    ensures Course(a, t, p, y)
  {}

  // ---------------------------------------------------------------------------
  //  The whole request
  // ---------------------------------------------------------------------------

  /** The call answered; the first read may fail. */
  predicate Answered(p: nat, t: Turn)
    requires Present(p, t)
  {
    t.reply == Answer || t.before.procs[p].pc.Check?
  }

  predicate AllPresent(p: nat, log: seq<Turn>) { forall k | 0 <= k < |log| :: Present(p, log[k]) }

  predicate Smooth(p: nat, log: seq<Turn>)
    requires AllPresent(p, log)
  {
    forall k | 0 <= k < |log| :: Answered(p, log[k])
  }

  /** The calls of a request that arrived at log[0].before and with which nobody interferes. */
  ghost predicate Undisturbed(c: Config, p: nat, log: seq<Turn>) {
    && Chain(p, log) && FromStart(p, log) && Solo(c, p, log)
    && forall k | 0 <= k < |log| :: Mannered(p, log[k])
  }

  lemma SoloHead(c: Config, p: nat, log: seq<Turn>)
    requires |log| > 1 && Undisturbed(c, p, log)
    ensures Undisturbed(c, p, log[..|log| - 1])
    ensures Present(p, log[|log| - 2]) && log[|log| - 1].before == Left(c, p, log[|log| - 2])
  {
    var head := log[..|log| - 1];
    Shorter(p, log);
    forall k | 0 <= k < |head| ensures Present(p, head[k]) && Mannered(p, head[k]) {
      assert Present(p, log[k]) && Mannered(p, log[k]);
    }
    assert Present(p, log[|log| - 2]) && Present(p, log[|log| - 1]);
  }

  lemma SmoothSnoc(p: nat, log: seq<Turn>)
    requires log != [] && AllPresent(p, log)
    ensures AllPresent(p, log[..|log| - 1]) && Present(p, log[|log| - 1])
    ensures Smooth(p, log) <==> Smooth(p, log[..|log| - 1]) && Answered(p, log[|log| - 1])
  {
    var head := log[..|log| - 1];
    forall k | 0 <= k < |head| ensures Present(p, head[k]) { assert Present(p, log[k]); }
    assert Present(p, log[|log| - 1]);
    if Smooth(p, head) && Answered(p, log[|log| - 1]) {
      forall k | 0 <= k < |log| ensures Present(p, log[k]) && Answered(p, log[k]) {
        if k < |head| { assert Answered(p, head[k]); }
      }
    }
    if Smooth(p, log) {
      forall k | 0 <= k < |head| ensures Present(p, head[k]) && Answered(p, head[k]) { assert Answered(p, log[k]); }
    }
  }

  lemma {:induction false} TimePasses(c: Config, p: nat, log: seq<Turn>, k: nat)
    requires Solo(c, p, log) && k < |log|
    ensures log[0].now <= log[k].now
    decreases k
  {
    if k > 0 { TimePasses(c, p, log, k - 1); }
  }

  lemma InstStays(c: Config, p: nat, t: Turn)
    requires Genuine(p, t)
    ensures p in Left(c, p, t).procs && Left(c, p, t).procs[p] == t.after && t.after.inst == t.before.procs[p].inst
  {}

  /** The last call is due, if the one before it left the request on course. */
  lemma NextDue(c: Config, p: nat, log: seq<Turn>, i: nat)
    requires Undisturbed(c, p, log) && Open(log[0].now, log[0].before, p, i)
    requires |log| > 1 ==>
      var u := log[|log| - 2];
      Present(p, u) && u.after.inst == i && Course(log[0].before, Left(c, p, u), p, u.after)
    ensures var a, t := log[0].before, log[|log| - 1];
      && Genuine(p, t) && t.before.procs[p].inst == i
      && Due(a, t.now, t.before.procs[p], t.reply) && Course(a, t.before, p, t.before.procs[p])
    ensures |log| > 1 ==> log[|log| - 1].before.procs[p] == log[|log| - 2].after
  {
    var n := |log| - 1;
    assert Genuine(p, log[n]) && Mannered(p, log[n]);
    TimePasses(c, p, log, n);
    if n > 0 {
      assert Genuine(p, log[n - 1]);
      SoloHead(c, p, log);
      InstStays(c, p, log[n - 1]);
    }
  }

  /** The request stays on course, and on the way to a record as long as everything answers. */
  lemma {:induction false} OnCourse(c: Config, p: nat, log: seq<Turn>, i: nat)
    requires Undisturbed(c, p, log) && Open(log[0].now, log[0].before, p, i)
    ensures var t := log[|log| - 1]; Present(p, t) && t.after.inst == i && Course(log[0].before, Left(c, p, t), p, t.after)
    ensures Forward(log[|log| - 1].after) <==> Smooth(p, log)
    decreases |log|
  {
    var n := |log| - 1;
    SmoothSnoc(p, log);
    if n > 0 {
      SoloHead(c, p, log);
      OnCourse(c, p, log[..n], i);
    } else {
      assert log[..0] == [];
    }
    NextDue(c, p, log, i);
    TurnGoes(c, log[0].before, p, log[n]);
    InstStays(c, p, log[n]);
  }

  /** A create that nobody interferes with ends with its own id exactly if every call after the
      first read answers.  Then the record is ready with the checksum of the upload, the persistent
      object holds the uploaded content, the location refers to it, the staging object and the lease
      are gone.  Otherwise it fails and nothing is left of it: no row, no lease taken, location and
      staging object as they were. */
  lemma CreatesOrLeavesNoTrace(c: Config, p: nat, log: seq<Turn>, i: nat)
    requires Execution(p, log) && Undisturbed(c, p, log)
    requires Open(log[0].now, log[0].before, p, i)
    ensures var a, z, o := log[0].before, Left(c, p, log[|log| - 1]), log[|log| - 1].after.outcome;
      if Smooth(p, log) then
        && o == Created(p)
        && z.row.Row? && z.row.id == p && z.row.state == Ready && z.row.sum == Object(a, a.loc).data
        && z.loc == Persistent && z.linked && z.lease == NoLease
        && z.persistent.Blob? && z.persistent.data == Object(a, a.loc).data
        && (a.loc == Staging ==> z.staging == NoBlob)
        && z.seen == a.seen + [Returned(p)]
      else
        && o == Failed
        && z.row == NoRow && (z.lease == NoLease || z.lease == a.lease)
        && z.loc == a.loc && z.linked == a.linked && z.staging == a.staging && z.seen == a.seen
        && (z.persistent == NoBlob || z.persistent == a.persistent)
  {
    OnCourse(c, p, log, i);
  }
}
