/**
  CreateFileMetadata::Execute as structured code: early returns, the abort lambda, the bounded
  wait, the lease guard that releases on every return.  It runs under arbitrary interference:
  before every port call the environment supplies the shared state and the port's reply.  The
  code branches only on what ports answer; the obligation at each call is that the protocol of
  module Registration makes that very call next, so the code performs a complete execution of
  the protocol whatever the environment does.
*/
module ExecuteCreate {
  import opened Registration
  import opened CreateMetadata
  import opened Moments

  /** A log of calls that started with a new request and has brought it to state x. */
  ghost predicate Logged(p: nat, log: seq<Turn>, x: Proc) {
    && Chain(p, log)
    && (if log == [] then x == Newcomer(x.inst)
        else FromStart(p, log) && log[0].before.procs[p].inst == x.inst
             && Present(p, log[|log| - 1]) && log[|log| - 1].after == x)
  }

  lemma Extended(p: nat, log: seq<Turn>, x: Proc, t: Turn)
    requires Logged(p, log, x) && Genuine(p, t)
    requires Tended(x, t.before.procs[p])
    requires log == [] ==> t.before.procs[p] == x
    ensures Logged(p, log + [t], t.after)
  {
    var more := log + [t];
    forall k | 0 <= k < |more| ensures Present(p, more[k]) {
      if k < |log| { assert Present(p, log[k]); }
    }
    forall i, j | 0 <= i && j == i + 1 < |more| ensures Resumes(p, more[i], more[j]) {
      if j < |log| { assert Resumes(p, log[i], log[j]); }
    }
    forall k | 0 <= k < |more| ensures Genuine(p, more[k]) {
      if k < |log| { assert Genuine(p, log[k]); }
    }
  }

  /** A call made at moment m by a request in state x. */
  function TurnAt(p: nat, x: Proc, m: Moment): (t: Turn)
    ensures Present(p, t) && t.before.procs[p] == x
  {
    var s := Put(m.slot, p, x);
    Turn(m.now, s, m.reply, After(m.now, s, p, x, m.reply))
  }

  /** The code does not depend on what the renewer touches. */
  lemma TendedFlows(x: Proc, y: Proc, p: nat, h: Heard, after: Proc)
    requires Tended(x, y) && Flow(y, p, h, after)
    ensures Flow(x, p, h, after)
  {
    TendedSame(x, y, p, h);
  }

  lemma TendedSame(x: Proc, y: Proc, p: nat, h: Heard)
    requires Tended(x, y)
    ensures NextPc(y, h) == NextPc(x, h) && NextGuarded(y, h) == NextGuarded(x, h) && NextFound(y, h) == NextFound(x, h)
    ensures Told(y, p, h) == Told(x, p, h)
  {}

  lemma TurnIs(p: nat, x: Proc, y: Proc, m: Moment)
    requires !Ended(x) && Tended(x, y)
    ensures var t := TurnAt(p, y, m);
      Genuine(p, t) && Flow(x, p, HeardAt(p, t), t.after) && Plausible(x.pc, HeardAt(p, t))
    ensures var h := HeardAt(p, TurnAt(p, y, m));
      x.pc.Wait? ==> (h.Err? <==> !m.reply.Answer?) && (h.Record? || h.Busy? || h.Err?)
  {
    var t := TurnAt(p, y, m);
    TurnFlows(p, t);
    TendedFlows(x, y, p, HeardAt(p, t), t.after);
    HeardWhere(m.now, t.before, p, y, m.reply);
  }

  /** What the reads and ClaimForWrite answer at this moment. */
  predicate Tells(m: Moment, port: Pc, h: Heard) {
    && (port.Check? || port.Reread? || port.RbCheck? ==> h == if Shows(m) then Record(m.slot.row.id) else Err)
    && (port.Wait? ==> h == if Shows(m) then Record(m.slot.row.id) else if m.reply == Answer then Busy else Err)
    && (port.Claim? ==>
          h == if m.reply != Answer then Err
               else if m.slot.row.NoRow? then Won
               else if IsReady(m.slot) then Record(m.slot.row.id) else Busy)
  }

  lemma TurnTold(p: nat, x: Proc, m: Moment)
    ensures Tells(m, x.pc, HeardAt(p, TurnAt(p, x, m)))
    ensures x.pc.Check? || (x.lost == m.lost && x.beat == m.beat) ==> Meets(p, m, TurnAt(p, x, m))
  {}

  /** The request as its next call finds it. */
  function Noted(x: Proc, m: Moment): Proc { if x.pc.Check? then x else x.(lost := m.lost, beat := m.beat) }

  lemma TurnExtends(p: nat, log: seq<Turn>, x: Proc, m: Moment)
    requires Logged(p, log, x) && !Ended(x)
    ensures var t := TurnAt(p, Noted(x, m), m); var h := HeardAt(p, t);
      && Logged(p, log + [t], t.after)
      && Flow(x, p, h, t.after) && Plausible(x.pc, h) && Tells(m, x.pc, h)
  {
    TurnIs(p, x, Noted(x, m), m);
    TurnTold(p, Noted(x, m), m);
    Extended(p, log, x, TurnAt(p, Noted(x, m), m));
  }

  lemma TurnDrawn(p: nat, env: nat -> Moment, log: seq<Turn>, used: seq<nat>, clock: nat, x: Proc, m: Moment)
    requires Drawn(p, env, log, used, clock) && (x.pc.Wait? || clock == |log|)
    requires m == env(clock) || (x.pc.Wait? && m == env(clock).(reply := Fault))
    ensures Drawn(p, env, log + [TurnAt(p, Noted(x, m), m)], used + [clock], clock + 1)
  {
    TurnTold(p, Noted(x, m), m);
    DrawnOn(p, env, log, used, clock, TurnAt(p, Noted(x, m), m));
  }

  /** What the fields say: the calls of request p of instance i so far, the moments they were made
      at, and the state they have brought it to. */
  ghost predicate Recorded(p: nat, i: nat, env: nat -> Moment, log: seq<Turn>, used: seq<nat>, clock: nat, x: Proc) {
    && Logged(p, log, x) && Drawn(p, env, log, used, clock) && x.inst == i
    && (x.pc.Wait? || x.pc.Done? || clock == |log|)
  }

  /** The call that found the request in state x at moment m and left it in y was answered by h. */
  predicate Heeds(p: nat, x: Proc, m: Moment, h: Heard, y: Proc) {
    Flow(x, p, h, y) && Plausible(x.pc, h) && Tells(m, x.pc, h)
  }

  lemma TurnRecorded(p: nat, i: nat, env: nat -> Moment, log: seq<Turn>, used: seq<nat>, clock: nat, x: Proc, m: Moment)
    requires Recorded(p, i, env, log, used, clock, x) && !Ended(x)
    requires m == env(clock) || (x.pc.Wait? && m == env(clock).(reply := Fault))
    ensures var t := TurnAt(p, Noted(x, m), m); var h := HeardAt(p, t);
      Recorded(p, i, env, log + [t], used + [clock], clock + 1, t.after) && Heeds(p, x, m, h, t.after)
  {
    TurnExtends(p, log, x, m);
    TurnDrawn(p, env, log, used, clock, x, m);
    WaitFlows(x, p, HeardAt(p, TurnAt(p, Noted(x, m), m)));
  }

  /** Waiting is entered once and left for good. */
  lemma WaitFlows(x: Proc, p: nat, h: Heard)
    ensures x.pc.Wait? ==> NextPc(x, h).Wait? || NextPc(x, h).Done?
  {}

  class CreateFileMetadata {
    const id: nat
    const inst: nat
    const env: nat -> Moment
    /** Moments used up. */
    var clock: nat
    /** No lease guard exists, or it has released already. */
    var released: bool
    /** The request's own variables, as the protocol names them. */
    var self: Proc
    ghost var log: seq<Turn>
    /** The moment of each call. */
    ghost var used: seq<nat>

    constructor (id: nat, inst: nat, env: nat -> Moment)
      ensures Valid() && log == [] && released && self == Newcomer(inst)
      ensures this.id == id && this.inst == inst && this.env == env
    {
      this.id, this.inst, this.env := id, inst, env;
      clock, released, self, log, used := 0, true, Newcomer(inst), [], [];
    }

    ghost predicate Valid()
      reads this
    {
      Recorded(id, inst, env, log, used, clock, self)
    }

    /** One port call at moment m, the current one or its end.  Before the first call there is no
        renewer to set the flag. */
    method Take(m: Moment, port: Pc) returns (h: Heard)
      requires Valid() && self.pc == port && !port.Done? && !port.Dead?
      requires m == env(clock) || (port.Wait? && m == env(clock).(reply := Fault))
      modifies this`clock, this`self, this`log, this`used
      ensures Valid() && log != [] && clock == old(clock) + 1
      ensures Heeds(id, old(self), m, h, self)
    {
      var t := TurnAt(id, Noted(self, m), m);
      TurnRecorded(id, inst, env, log, used, clock, self, m);
      h := HeardAt(id, t);
      log, used, self, clock := log + [t], used + [clock], t.after, clock + 1;
    }

    method Call(port: Pc) returns (h: Heard)
      requires Valid() && self.pc == port && !port.Done? && !port.Dead? && !port.Wait?
      modifies this`clock, this`self, this`log, this`used
      ensures Valid() && log != [] && clock == old(clock) + 1
      ensures Flow(old(self), id, h, self) && Plausible(port, h)
      ensures port.Check? || port.Claim? || port.Reread? || port.RbCheck? ==> Tells(env(old(clock)), port, h)
    {
      h := Take(env(clock), port);
    }

    /** One poll for the record of the other claimant; a read that fails has no effect. */
    method Poll() returns (h: Heard)
      requires Valid() && self.pc.Wait? && log != []
      modifies this`clock, this`self, this`log, this`used
      ensures Valid() && log != [] && clock == old(clock) + 1
      ensures h == if Shows(env(old(clock))) then Record(env(old(clock)).slot.row.id) else Busy
      ensures if h.Record? then self.pc.Done? && self.outcome == Existing(h.id) else self.pc.Wait?
    {
      var m := env(clock);
      if m.reply == Answer { h := Take(m, Wait); return; }
      DrawnLater(id, env, log, used, clock);
      clock, h := clock + 1, Busy;
    }

    /** The polls, until one finds a record. */
    method PollAll() returns (h: Heard)
      requires Valid() && self.pc.Wait? && log != []
      modifies this`clock, this`self, this`log, this`used
      ensures Valid() && log != [] && (h.Record? || h.Busy?)
      ensures h.Record? ==> self.pc.Done? && self.outcome == Existing(h.id) && Awaited(env, old(clock), POLLS, Existing(h.id))
      ensures h.Busy? ==> self.pc.Wait? && Silent(env, old(clock), POLLS)
    {
      var polls := 0;
      h := Busy;
      while polls < POLLS
        invariant Valid() && self.pc.Wait? && log != [] && h.Busy?
        invariant polls <= POLLS && clock == old(clock) + polls && Silent(env, old(clock), polls)
      {
        h := Poll();
        if h.Record? {
          ShownAt(env, old(clock), polls, POLLS);
          return;
        }
        SilentOn(env, old(clock), polls);
        polls := polls + 1;
      }
    }

    /** Bounded wait; running out of time is the Fault reply of step Wait.  The first poll that
        finds a record decides. */
    method WaitForExistingClaim() returns (o: Outcome)
      requires Valid() && self.pc.Wait? && log != []
      modifies this`clock, this`self, this`log, this`used
      ensures Valid() && self.pc.Done? && log != [] && o == self.outcome
      ensures Awaited(env, old(clock), POLLS, o)
    {
      var h := PollAll();
      if h.Record? { return Existing(h.id); }
      var _ := Take(env(clock).(reply := Fault), Wait);
      o := Failed;
    }

    /** First Renew; if there is no lease of ours, Acquire. */
    method EnsureLeaseOwnership() returns (owned: bool)
      requires Valid() && self.pc.Renew? && !self.guarded
      modifies this`clock, this`self, this`log, this`used
      ensures Valid() && log != [] && self.guarded == owned
      ensures if owned then self.pc.Arm? else self.pc.Unclaim?
      ensures self.outcome == old(self.outcome)
    {
      var h := Call(Renew);
      if h.Fine? { return true; }
      if !h.Missing? { return false; }
      h := Call(Acquire);
      return h.Fine?;
    }

    /** RollbackCreatedObject: remove the object, which takes a second call, unless a ready record
        owns it. */
    method RollbackCreatedObject()
      requires Valid() && self.pc.RbCheck?
      modifies this`clock, this`self, this`log, this`used
      ensures Valid() && log != [] && self.pc.Unclaim?
      ensures self.guarded == old(self.guarded)
      ensures clock == old(clock) + if Shows(env(old(clock))) then 1 else 2
    {
      var h := Call(RbCheck);
      if h.Record? { return; }
      assert self.pc.RbRemove?;
      var _ := Call(RbRemove);
    }

    /** ReleaseClaim on the way out. */
    method GiveBack()
      requires Valid() && self.pc.Unclaim?
      modifies this`clock, this`self, this`log, this`used
      ensures Valid() && log != [] && self.outcome == Failed && self.guarded == old(self.guarded)
      ensures if self.guarded then self.pc.Free? else self.pc.Done?
    {
      var _ := Call(Unclaim);
    }

    /** The abort lambda: roll the object back (unless a ready record owns it), then give the
        claim back. */
    method AbortCreate(rollback: bool)
      requires Valid() && (if rollback then self.pc.RbCheck? else self.pc.Unclaim?)
      modifies this`clock, this`self, this`log, this`used
      ensures Valid() && log != [] && self.outcome == Failed
      ensures if old(self.guarded) then self.pc.Free? && self.guarded else self.pc.Done? && !self.guarded
    {
      if rollback { RollbackCreatedObject(); }
      GiveBack();
    }

    /** UploadLeaseGuard::ReleaseNow: idempotent. */
    method ReleaseNow()
      requires Valid() && log != [] && (released ==> self.pc.Done?) && (!released ==> self.pc.Free?)
      modifies this
      ensures Valid() && log != [] && released
      ensures old(released) ==> self == old(self)
      ensures !old(released) ==> Flow(old(self), id, Fine, self)
    {
      if released { return; }
      released := true;
      var _ := Call(Free);
    }

    /** Repoint the location; remove the staging object if the upload came from there. */
    method Relocate(sourceIsStaging: bool)
      requires Valid() && log != [] && self.pc.Save?
      requires self.found == (if sourceIsStaging then Staging else Persistent)
      modifies this`clock, this`self, this`log, this`used
      ensures Valid() && log != [] && self.pc.Done? && self.outcome == old(self.outcome)
    {
      var _ := Call(Save);
      if sourceIsStaging { var _ := Call(Sweep); }
    }

    /** After MarkReady: release the lease, repoint the location, remove the staging object. */
    method Conclude(sourceIsStaging: bool)
      requires Valid() && log != [] && !released && self.pc.Free? && self.outcome.Created?
      requires self.found == (if sourceIsStaging then Staging else Persistent)
      modifies this
      ensures Valid() && log != [] && released && self.pc.Done? && self.outcome == old(self.outcome)
    {
      ReleaseNow();
      Relocate(sourceIsStaging);
    }

    /** The copy failed.  Should somebody else's record have turned up, give the claim back and
        return that record; otherwise roll back. */
    method CopyFailed() returns (o: Outcome)
      requires Valid() && log != [] && self.pc.Reread? && self.guarded && self.outcome == Pending
      modifies this`clock, this`self, this`log, this`used
      ensures Valid() && log != [] && o == self.outcome && self.pc.Free? && self.guarded
      ensures o == if Shows(env(old(clock))) then Existing(env(old(clock)).slot.row.id) else Failed
    {
      var h := Call(Reread);
      if h.Record? {
        var _ := Call(Yield);
        return Existing(h.id);
      }
      AbortCreate(true);
      return Failed;
    }

    /** Checksum, then MarkReady. */
    method Sealed() returns (ok: bool)
      requires Valid() && log != [] && self.pc.Sum? && self.guarded && self.outcome == Pending
      modifies this`clock, this`self, this`log, this`used
      ensures Valid() && log != [] && self.guarded && self.found == old(self.found)
      ensures if ok then self.pc.Free? && self.outcome == Created(id) else self.pc.RbCheck?
    {
      var h := Call(Sum);
      if !h.Fine? { return false; }
      h := Call(Mark);
      return h.Fine?;
    }

    /** Checksum and MarkReady: own id and still guarded, or rolled back. */
    method Register() returns (o: Outcome)
      requires Valid() && log != [] && self.pc.Sum? && self.guarded && self.outcome == Pending
      modifies this`clock, this`self, this`log, this`used
      ensures Valid() && log != [] && o == self.outcome && self.pc.Free? && self.guarded
      ensures self.found == old(self.found) || o == Failed
      ensures o == Failed || o == Created(id)
    {
      var ok := Sealed();
      if ok { return Created(id); }
      AbortCreate(true);
      return Failed;
    }

    /** Copy the upload, or find it copied already. */
    method Secure(sourceIsStaging: bool) returns (ok: bool, o: Outcome)
      requires Valid() && log != [] && self.guarded && self.outcome == Pending
      requires if sourceIsStaging then self.pc.Copy? else self.pc.Stat?
      modifies this`clock, this`self, this`log, this`used
      ensures Valid() && log != [] && o == self.outcome && self.guarded
      ensures ok ==> self.pc.Sum? && o == Pending && self.found == old(self.found)
      ensures !ok ==> self.pc.Free? && (o == Failed || o.Existing?)
    {
      if sourceIsStaging {
        var h := Call(Copy);
        if h.Fine? { return true, Pending; }
        o := CopyFailed();
        return false, o;
      }
      var h := Call(Stat);
      if h.Fine? { return true, Pending; }
      AbortCreate(true);
      return false, Failed;
    }

    /** From the copy on; both lease boundary checks are part of the call they precede. */
    method Transfer(sourceIsStaging: bool) returns (o: Outcome)
      requires Valid() && log != [] && !released && self.guarded && self.outcome == Pending
      requires self.found == (if sourceIsStaging then Staging else Persistent)
      requires if sourceIsStaging then self.pc.Copy? else self.pc.Stat?
      modifies this
      ensures Valid() && log != [] && o == self.outcome
      ensures if released then self.pc.Done? && o == Created(id) else self.pc.Free? && (o == Failed || o.Existing?)
    {
      var ok;
      ok, o := Secure(sourceIsStaging);
      if !ok { return; }
      o := Register();
      if o.Created? { Conclude(sourceIsStaging); }
    }

    /** Start the renewer, then look up the location. */
    method Locate() returns (h: Heard)
      requires Valid() && log != [] && self.pc.Arm? && self.guarded && self.outcome == Pending
      modifies this`clock, this`self, this`log, this`used
      ensures Valid() && log != [] && self.guarded
      ensures h.Zone? ==> h.place != NoPlace && self.found == h.place && self.outcome == Pending
      ensures h.Zone? ==> if h.place == Staging then self.pc.Copy? else self.pc.Stat?
      ensures h.Dangling? ==> self.pc.Free? && self.outcome == Failed
      ensures !h.Zone? && !h.Dangling? ==> self.pc.Unclaim?
    {
      h := Call(Arm);
      if !h.Fine? { return Err; }
      h := Call(Find);
    }

    /** Under claim and lease guard: start the renewer, look up the location, transfer. */
    method Guarded() returns (o: Outcome)
      requires Valid() && log != [] && !released
      requires self.pc.Arm? && self.guarded && self.outcome == Pending
      modifies this
      ensures Valid() && log != [] && o == self.outcome
      ensures if released then self.pc.Done? else self.pc.Free? && !o.Created?
    {
      var h := Locate();
      if h.Dangling? { return Failed; }
      if !h.Zone? { AbortCreate(false); return Failed; }
      o := Transfer(h.place == Staging);
    }

    /** What a request does once it holds the claim. */
    method Claimed() returns (o: Outcome)
      requires Valid() && log != [] && released
      requires self.pc.Renew? && !self.guarded && self.outcome == Pending
      modifies this
      ensures Valid() && log != [] && o == self.outcome
      ensures if released then self.pc.Done? else self.pc.Free? && !o.Created?
    {
      var owned := EnsureLeaseOwnership();
      if !owned { AbortCreate(false); return Failed; }
      released := false;
      o := Guarded();
    }

    /** No record was found: claim, and then do the work or wait for the claimant. */
    method Contend() returns (o: Outcome)
      requires Valid() && log != [] && released && clock == 1
      requires self.pc.Claim? && !self.guarded && self.outcome == Pending
      modifies this
      ensures Valid() && log != [] && o == self.outcome
      ensures if released then self.pc.Done? else self.pc.Free? && !o.Created?
      ensures Contended(env, o)
    {
      var h := Call(Claim);
      if h.Record? { return Existing(h.id); }
      if h.Err? { return Failed; }
      if h.Won? { o := Claimed(); } else { o := WaitForExistingClaim(); }
    }

    /** Everything up to the end of the scope that holds the lease guard. */
    method Body() returns (o: Outcome)
      requires Valid() && log == [] && released
      modifies this
      ensures Valid() && log != [] && o == self.outcome
      ensures if released then self.pc.Done? else self.pc.Free? && !o.Created?
      ensures Foretold(env, o)
    {
      var h := Call(Check);
      if h.Record? { return Existing(h.id); }
      o := Contend();
    }

    /** The guard's destructor runs after every return. */
    method Scope() returns (o: Outcome)
      requires Valid() && log == [] && released
      modifies this
      ensures Valid() && log != [] && self.pc.Done? && released && o == self.outcome
      ensures Foretold(env, o)
    {
      o := Body();
      ReleaseNow();
    }

    lemma Executed()
      requires Valid() && log != [] && self.pc.Done?
      ensures Execution(id, log) && Drawn(id, env, log, used, clock)
      ensures self.outcome == log[|log| - 1].after.outcome
      ensures SolitudeLaw(env, id, inst, log, self.outcome)
    {
      assert Present(id, log[|log| - 1]) && log[|log| - 1].after == self;
      SolitudeHolds(env, id, inst, log, used, clock);
    }

    /** Whatever the environment does, the code performs a complete execution of the protocol on
        the moments it presents, and returns its outcome.  The first two moments and the polls
        decide unless the claim is won; if nobody else acts, the execution is undisturbed, so that
        it creates or leaves no trace. */
    method Execute() returns (o: Outcome)
      requires Valid() && log == [] && released
      modifies this
      ensures Execution(id, log) && released
      ensures Drawn(id, env, log, used, clock)
      ensures o == log[|log| - 1].after.outcome
      ensures Foretold(env, o)
      ensures SolitudeLaw(env, id, inst, log, o)
    {
      o := Scope();
      Executed();
    }
  }
}
