/**
  Idempotency of creates, and runs in which a ready record loses its bytes because a condition
  of a sound deployment is missing.  Module PagedPass has the last such run and the exact
  condition.
*/
module RegistrationTheorems {
  import opened Base
  import opened Registration
  import opened RegistrationInvariant
  import opened RegistrationSafety

  // ---------------------------------------------------------------------------
  //  Idempotency: holds in every deployment
  // ---------------------------------------------------------------------------

  /** No deletion of the record between positions i and j of the history. */
  predicate Undisturbed(seen: seq<Seen>, i: int, j: int)
    requires 0 <= i <= j <= |seen|
  {
    forall k | i <= k < j :: seen[k] != Erased
  }

  /** Between two deletions, every create that succeeds is given the same record. */
  predicate SameRecord(seen: seq<Seen>) {
    forall i, j | 0 <= i < j < |seen| && seen[i].Returned? && seen[j].Returned? && Undisturbed(seen, i, j) ::
      seen[i].id == seen[j].id
  }

  /** Every id handed out since the latest deletion is that of the ready row. */
  predicate Current(s: Slot) {
    forall i | 0 <= i < |s.seen| && s.seen[i].Returned? && Undisturbed(s.seen, i, |s.seen|) ::
      IsReady(s) && s.row.id == s.seen[i].id
  }

  /** A process holds an id only if it was handed out. */
  predicate Honest(s: Slot, x: Proc) { Succeeds(x.outcome) ==> Returned(x.outcome.id) in s.seen }

  ghost predicate IdInv(s: Slot) {
    && SameRecord(s.seen) && Current(s)
    && forall p :: p in s.procs ==> Honest(s, s.procs[p])
  }

  /** How one action may change the row and the history. */
  predicate Discreet(s: Slot, t: Slot) {
    || (t.seen == s.seen && (IsReady(s) ==> IsReady(t) && t.row.id == s.row.id))
    || (IsReady(t) && t.seen == s.seen + [Returned(t.row.id)] && (IsReady(s) ==> t.row.id == s.row.id))
    || t.seen == s.seen + [Erased]
  }

  /** Request p made a discreet move, and any id it now holds was handed out. */
  predicate Moves(s: Slot, t: Slot, p: nat) {
    && Discreet(s, t)
    && p in t.procs && t.procs == s.procs[p := t.procs[p]]
    && (Succeeds(t.procs[p].outcome) ==>
          || (p in s.procs && s.procs[p].outcome == t.procs[p].outcome)
          || (t.seen != [] && t.seen[|t.seen| - 1] == Returned(t.procs[p].outcome.id)))
  }

  /** No call of a request takes a ready record away, or touches other requests. */
  lemma EffectKeepsReady(c: Config, now: int, s: Slot, p: nat, x: Proc, r: Reply)
    ensures var t := Effect(c, now, s, p, x, r);
      t.procs == s.procs && (IsReady(s) ==> IsReady(t) && t.row.id == s.row.id)
  {}

  /** An id comes from the record that was heard, or from one's own MarkReady. */
  lemma NextTells(x: Proc, p: nat, h: Heard)
    ensures var o := Next(x, p, h).outcome;
      Succeeds(o) ==> o == x.outcome || (h.Record? && o.id == h.id) || (x.pc.Mark? && h.Fine? && o.id == p)
  {}

  lemma RecordIsReady(now: int, s: Slot, p: nat, x: Proc, r: Reply)
    ensures var h := Hear(now, s, p, x, r);
      && (h.Record? ==> IsReady(s) && h.id == s.row.id)
      && (x.pc.Mark? && h.Fine? ==> Commits(s, p, x, r))
  {}

  /** A request comes to hold the id of the record that is ready after the call. */
  lemma ReadyWhenTold(c: Config, now: int, s: Slot, p: nat, x: Proc, r: Reply)
    ensures var t, o := Effect(c, now, s, p, x, r), After(now, s, p, x, r).outcome;
      Succeeds(o) ==> o == x.outcome || (IsReady(t) && t.row.id == o.id)
  {
    var h := Hear(now, s, p, x, r);
    NextTells(x, p, h);
    RecordIsReady(now, s, p, x, r);
    EffectKeepsReady(c, now, s, p, x, r);
  }

  lemma StepMoves(c: Config, now: int, s: Slot, p: nat, r: Reply)
    requires p in s.procs
    ensures Moves(s, Step(c, now, s, p, r), p)
  {
    EffectKeepsReady(c, now, s, p, s.procs[p], r);
    ReadyWhenTold(c, now, s, p, s.procs[p], r);
  }

  /** A discreet change keeps the history consistent with the row. */
  lemma DiscreetKeepsHistory(s: Slot, t: Slot)
    requires SameRecord(s.seen) && Current(s) && Discreet(s, t)
    ensures SameRecord(t.seen) && Current(t)
  {
    forall i | 0 <= i < |t.seen| && t.seen[i].Returned? && Undisturbed(t.seen, i, |t.seen|)
      ensures IsReady(t) && t.row.id == t.seen[i].id
    {
      if i < |s.seen| {
        assert s.seen[i] == t.seen[i];
        assert forall k | i <= k < |s.seen| :: s.seen[k] == t.seen[k];
        assert Undisturbed(s.seen, i, |s.seen|);
        if |t.seen| > |s.seen| { assert t.seen[|s.seen|] != Erased; }
      }
    }
    forall i, j | 0 <= i < j < |t.seen| && t.seen[i].Returned? && t.seen[j].Returned? && Undisturbed(t.seen, i, j)
      ensures t.seen[i].id == t.seen[j].id
    {
      assert forall k | i <= k < Min(j, |s.seen|) :: s.seen[k] == t.seen[k];
      if j < |s.seen| {
        assert s.seen[j] == t.seen[j] && Undisturbed(s.seen, i, j);
      } else {
        assert Undisturbed(s.seen, i, |s.seen|);
      }
    }
  }

  lemma MovesKeepIds(s: Slot, t: Slot, p: nat)
    requires IdInv(s) && Moves(s, t, p)
    ensures IdInv(t)
  {
    DiscreetKeepsHistory(s, t);
    forall q | q in t.procs ensures Honest(t, t.procs[q]) {
      if q in s.procs { assert Honest(s, s.procs[q]); }
      assert forall e | e in s.seen :: e in t.seen;
    }
  }

  lemma OthersDiscreet(c: Config, now: int, s: Slot, a: Action)
    requires Enabled(c, now, s, a) && !a.Run?
    ensures Discreet(s, Apply(c, now, s, a))
  {}

  /** Only renewer turns, arrivals and crashes touch requests at all. */
  lemma OthersQuiet(c: Config, now: int, s: Slot, a: Action)
    requires Enabled(c, now, s, a) && !a.Run? && !a.RunRenewer? && !a.Crash? && !a.Start?
    ensures Apply(c, now, s, a).procs == s.procs
  {}

  lemma OthersHoldNoId(c: Config, now: int, s: Slot, a: Action, q: nat)
    requires Enabled(c, now, s, a) && !a.Run? && q in Apply(c, now, s, a).procs
    ensures var y := Apply(c, now, s, a).procs[q];
      Succeeds(y.outcome) ==> q in s.procs && s.procs[q].outcome == y.outcome
  {
    if !a.RunRenewer? && !a.Crash? && !a.Start? { OthersQuiet(c, now, s, a); }
  }

  lemma ActionKeepsIds(c: Config, now: int, s: Slot, a: Action)
    requires IdInv(s) && Enabled(c, now, s, a)
    ensures IdInv(Apply(c, now, s, a))
  {
    var t := Apply(c, now, s, a);
    if a.Run? {
      StepMoves(c, now, s, a.p, a.r);
      MovesKeepIds(s, t, a.p);
    } else {
      OthersDiscreet(c, now, s, a);
      DiscreetKeepsHistory(s, t);
      forall q | q in t.procs ensures Honest(t, t.procs[q]) {
        OthersHoldNoId(c, now, s, a, q);
        if q in s.procs { assert Honest(s, s.procs[q]); }
        assert forall e | e in s.seen :: e in t.seen;
      }
    }
  }

  lemma {:induction false} RunsKeepIds(c: Config, v: World, run: seq<Event>, w: World)
    requires (forall f :: f in v.slots ==> IdInv(v.slots[f])) && Leads(c, v, run, w)
    ensures forall f :: f in w.slots ==> IdInv(w.slots[f])
    decreases run
  {
    if run != [] {
      var u := Advance(c, v, run[0]);
      forall f | f in u.slots ensures IdInv(u.slots[f]) {
        if run[0].On? && f == run[0].source {
          assert IdInv(SlotOf(v, f));
          ActionKeepsIds(c, v.now, SlotOf(v, f), run[0].act);
        }
      }
      RunsKeepIds(c, u, run[1..], w);
    }
  }

  /** In every run of every deployment, all creates of a FileSource that succeed between two
      deletions of its record return the same record id, and a request reports an id only
      after that record was ready. */
  lemma Idempotent(c: Config, w: World, f: FileSource)
    requires Reachable(c, w) && f in w.slots
    ensures SameRecord(w.slots[f].seen)
    ensures forall p | p in w.slots[f].procs && Succeeds(w.slots[f].procs[p].outcome) ::
              Returned(w.slots[f].procs[p].outcome.id) in w.slots[f].seen
    ensures Current(w.slots[f])
  {
    var run :| Leads(c, GENESIS, run, w);
    RunsKeepIds(c, GENESIS, run, w);
    var s := w.slots[f];
    assert IdInv(s);
    forall p | p in s.procs && Succeeds(s.procs[p].outcome)
      ensures Returned(s.procs[p].outcome.id) in s.seen
    {
      assert Honest(s, s.procs[p]);
    }
  }

  // ---------------------------------------------------------------------------
  //  Each condition of Sound is needed
  // ---------------------------------------------------------------------------

  /** One FileSource among others, whose slots stay as they are. */
  datatype Context = Context(source: FileSource, others: map<FileSource, Slot>)

  const ALONE := Context("/u/1-t/f", map[])

  function Among(k: Context, now: int, s: Slot): World { World(now, k.others[k.source := s]) }

  /** The slot of that source can look like s at time now. */
  ghost predicate Attainable(c: Config, k: Context, now: int, s: Slot) { Reachable(c, Among(k, now, s)) }

  lemma {:induction false} LeadsOn(c: Config, u: World, run: seq<Event>, v: World, e: Event)
    requires Leads(c, u, run, v) && Possible(c, v, e)
    ensures Leads(c, u, run + [e], Advance(c, v, e))
    decreases run
  {
    if run == [] {
      assert Leads(c, Advance(c, v, e), [], Advance(c, v, e));
      assert ([e])[1..] == [];
    } else {
      LeadsOn(c, Advance(c, u, run[0]), run[1..], v, e);
      assert (run + [e])[1..] == run[1..] + [e];
    }
  }

  lemma Onward(c: Config, v: World, e: Event)
    requires Reachable(c, v) && Possible(c, v, e)
    ensures Reachable(c, Advance(c, v, e))
  {
    var run :| Leads(c, GENESIS, run, v);
    LeadsOn(c, GENESIS, run, v, e);
  }

  lemma Proceed(c: Config, k: Context, now: int, s: Slot, a: Action, t: Slot)
    requires Attainable(c, k, now, s) && Enabled(c, now, s, a) && t == Apply(c, now, s, a)
    ensures Attainable(c, k, now, t)
  {
    Onward(c, Among(k, now, s), On(k.source, a));
    assert Advance(c, Among(k, now, s), On(k.source, a)) == Among(k, now, t);
  }

  /** One more port call of request p. */
  lemma Call(c: Config, k: Context, now: int, s: Slot, p: nat, r: Reply)
    requires Attainable(c, k, now, s) && p in s.procs && (c.gcAtomic ==> s.job == NoJob)
    requires r == Answer || (!c.savesReliable && s.procs[p].pc == Save)
    ensures Attainable(c, k, now, Step(c, now, s, p, r))
  {
    Proceed(c, k, now, s, Run(p, r), Step(c, now, s, p, r));
  }

  lemma Later(c: Config, k: Context, now: int, s: Slot, to: int)
    requires Attainable(c, k, now, s) && now <= to && InTime(c, to, s)
    requires forall f | f in k.others && f != k.source :: InTime(c, to, k.others[f])
    ensures Attainable(c, k, to, s)
  {
    Onward(c, Among(k, now, s), Tick(to));
    assert Advance(c, Among(k, now, s), Tick(to)) == Among(k, to, s);
  }

  /** An upload location was issued by instance i at time 0. */
  function Fresh(c: Config, i: nat, linked: bool): Slot {
    Slot(true, NoRow, Staging, linked, Blob("", 0), NoBlob, Lease(i, c.ttl), map[], NoJob, NoPass, [], None, false)
  }

  lemma FreshAttainable(c: Config, k: Context, i: nat, linked: bool)
    requires i in c.instances && k.source !in k.others && Reachable(c, World(0, k.others))
    ensures Attainable(c, k, 0, Fresh(c, i, linked))
  {
    var w, e := World(0, k.others), On(k.source, Issue(i, true, linked));
    Onward(c, w, e);
    assert Advance(c, w, e) == Among(k, 0, Fresh(c, i, linked));
  }

  lemma StartReachable(c: Config)
    ensures Reachable(c, World(0, ALONE.others))
  {
    assert Leads(c, GENESIS, [], GENESIS);
  }

  /** A source with an upload by instance i and nothing else going on. */
  predicate Idle(c: Config, s: Slot, i: nat) {
    && i in c.instances
    && s.issued && s.row == NoRow && s.loc == Staging && s.staging.Blob?
    && s.procs == map[] && s.lease.Lease? && s.lease.owner == i
    && (c.gcAtomic ==> s.job == NoJob)
  }

  ghost predicate Untouched(c: Config, k: Context, now: int, s: Slot, i: nat) { Attainable(c, k, now, s) && Idle(c, s, i) && s.linked }

  // The states that request 1 of instance i passes through when every call answers.

  function Arrived(s: Slot, i: nat, pc: Pc): Slot { s.(procs := map[1 := Newcomer(i).(pc := pc)]) }

  /** It has won the claim. */
  function Winning(s: Slot, now: int, i: nat): Slot {
    s.(row := Row(1, Claiming, now, ""), procs := map[1 := Newcomer(i).(pc := Renew, claimedAt := now)])
  }

  /** It holds the claim and the lease. */
  function Leased(c: Config, s: Slot, now: int, i: nat, pc: Pc): Slot {
    s.(row := Row(1, Claiming, now, ""), lease := Lease(i, now + c.ttl),
       procs := map[1 := Proc(i, pc, true, false, NoPlace, now, 0, now, "", false, false, Pending)])
  }

  /** It has read the location and is about to copy. */
  function Copying(c: Config, s: Slot, now: int, i: nat): Slot {
    s.(row := Row(1, Claiming, now, ""), lease := Lease(i, now + c.ttl),
       procs := map[1 := Proc(i, Copy, true, false, Staging, now, 0, now, "", false, false, Pending)])
  }

  function Clerk(i: nat, now: int, pc: Pc, sum: Content): Proc {
    Proc(i, pc, true, false, Staging, now, now, now, sum, false, false, Pending)
  }

  /** It has copied the upload, and knows the digest `sum` if it has read it. */
  function Copied(c: Config, s: Slot, now: int, i: nat, pc: Pc, sum: Content): Slot
    requires s.staging.Blob?
  {
    s.(row := Row(1, Claiming, now, ""), persistent := Blob(s.staging.data, now),
       lease := Lease(i, now + c.ttl), procs := map[1 := Clerk(i, now, pc, sum)])
  }

  /** MarkReady has succeeded; `lease` is what is left of the lease. */
  function Registered(c: Config, s: Slot, now: int, i: nat, lease: Lease, pc: Pc): Slot
    requires s.staging.Blob?
  {
    s.(row := Row(1, Ready, now, s.staging.data), persistent := Blob(s.staging.data, now), lease := lease,
       copier := Some(1), seen := s.seen + [Returned(1)],
       procs := map[1 := Clerk(i, now, pc, s.staging.data).(committed := true, outcome := Created(1))])
  }

  /** The location is repointed. */
  function Moved(c: Config, s: Slot, now: int, i: nat, staging: Blob, pc: Pc): Slot
    requires s.staging.Blob?
  {
    Registered(c, s, now, i, NoLease, pc).(loc := Persistent, moved := true, staging := staging)
  }

  lemma ClaimSteps(c: Config, now: int, s: Slot, i: nat)
    requires Idle(c, s, i)
    ensures Step(c, now, Arrived(s, i, Check), 1, Answer) == Arrived(s, i, Claim)
  {}

  lemma WinSteps(c: Config, now: int, s: Slot, i: nat)
    requires Idle(c, s, i)
    ensures Step(c, now, Arrived(s, i, Claim), 1, Answer) == Winning(s, now, i)
  {}

  lemma LeaseSteps(c: Config, now: int, s: Slot, i: nat)
    requires Idle(c, s, i)
    ensures Step(c, now, Winning(s, now, i), 1, Answer) == Leased(c, s, now, i, Arm)
  {}

  lemma ArmSteps(c: Config, now: int, s: Slot, i: nat)
    requires Idle(c, s, i)
    ensures Step(c, now, Leased(c, s, now, i, Arm), 1, Answer) == Leased(c, s, now, i, Find)
  {}

  lemma FindSteps(c: Config, now: int, s: Slot, i: nat)
    requires Idle(c, s, i) && s.linked
    ensures Step(c, now, Leased(c, s, now, i, Find), 1, Answer) == Copying(c, s, now, i)
  {}

  lemma CopySteps(c: Config, now: int, s: Slot, i: nat)
    requires Idle(c, s, i)
    ensures Step(c, now, Copying(c, s, now, i), 1, Answer) == Copied(c, s, now, i, Sum, "")
  {}

  lemma SumSteps(c: Config, now: int, s: Slot, i: nat)
    requires Idle(c, s, i)
    ensures Step(c, now, Copied(c, s, now, i, Sum, ""), 1, Answer) == Copied(c, s, now, i, Mark, s.staging.data)
  {}

  lemma MarkSteps(c: Config, now: int, s: Slot, i: nat)
    requires Idle(c, s, i)
    ensures Step(c, now, Copied(c, s, now, i, Mark, s.staging.data), 1, Answer) ==
      Registered(c, s, now, i, Lease(i, now + c.ttl), Free)
  {}

  lemma FreeSteps(c: Config, now: int, s: Slot, i: nat)
    requires Idle(c, s, i)
    ensures Step(c, now, Registered(c, s, now, i, Lease(i, now + c.ttl), Free), 1, Answer) ==
      Registered(c, s, now, i, NoLease, Save)
  {}

  lemma SaveFailsStep(c: Config, now: int, s: Slot, i: nat)
    requires Idle(c, s, i)
    ensures Step(c, now, Registered(c, s, now, i, NoLease, Save), 1, Fault) == Registered(c, s, now, i, NoLease, Sweep)
  {}

  lemma SaveSteps(c: Config, now: int, s: Slot, i: nat)
    requires Idle(c, s, i) && s.linked
    ensures Step(c, now, Registered(c, s, now, i, NoLease, Save), 1, Answer) == Moved(c, s, now, i, s.staging, Sweep)
  {}

  lemma SweepSteps(c: Config, now: int, s: Slot, i: nat)
    requires Idle(c, s, i)
    ensures Step(c, now, Moved(c, s, now, i, s.staging, Sweep), 1, Answer) == Moved(c, s, now, i, NoBlob, Done)
  {}

  lemma LeasedAttainable(c: Config, k: Context, now: int, s: Slot, i: nat)
    requires Attainable(c, k, now, s) && Idle(c, s, i)
    ensures Attainable(c, k, now, Leased(c, s, now, i, Find))
  {
    Proceed(c, k, now, s, Start(1, i), Arrived(s, i, Check));
    ClaimSteps(c, now, s, i);
    WinSteps(c, now, s, i);
    LeaseSteps(c, now, s, i);
    ArmSteps(c, now, s, i);
    Call(c, k, now, Arrived(s, i, Check), 1, Answer);
    Call(c, k, now, Arrived(s, i, Claim), 1, Answer);
    Call(c, k, now, Winning(s, now, i), 1, Answer);
    Call(c, k, now, Leased(c, s, now, i, Arm), 1, Answer);
  }

  lemma CopyingAttainable(c: Config, k: Context, now: int, s: Slot, i: nat)
    requires Untouched(c, k, now, s, i)
    ensures Attainable(c, k, now, Copying(c, s, now, i))
  {
    LeasedAttainable(c, k, now, s, i);
    FindSteps(c, now, s, i);
    Call(c, k, now, Leased(c, s, now, i, Find), 1, Answer);
  }

  lemma RegisteredAttainable(c: Config, k: Context, now: int, s: Slot, i: nat)
    requires Untouched(c, k, now, s, i)
    ensures Attainable(c, k, now, Registered(c, s, now, i, Lease(i, now + c.ttl), Free))
    ensures Attainable(c, k, now, Registered(c, s, now, i, NoLease, Save))
  {
    CopyingAttainable(c, k, now, s, i);
    CopySteps(c, now, s, i);
    SumSteps(c, now, s, i);
    MarkSteps(c, now, s, i);
    FreeSteps(c, now, s, i);
    Call(c, k, now, Copying(c, s, now, i), 1, Answer);
    Call(c, k, now, Copied(c, s, now, i, Sum, ""), 1, Answer);
    Call(c, k, now, Copied(c, s, now, i, Mark, s.staging.data), 1, Answer);
    Call(c, k, now, Registered(c, s, now, i, Lease(i, now + c.ttl), Free), 1, Answer);
  }

  lemma MovedAttainable(c: Config, k: Context, now: int, s: Slot, i: nat)
    requires Untouched(c, k, now, s, i)
    ensures Attainable(c, k, now, Moved(c, s, now, i, s.staging, Sweep))
    ensures Attainable(c, k, now, Moved(c, s, now, i, NoBlob, Done))
  {
    RegisteredAttainable(c, k, now, s, i);
    SaveSteps(c, now, s, i);
    SweepSteps(c, now, s, i);
    Call(c, k, now, Registered(c, s, now, i, NoLease, Save), 1, Answer);
    Call(c, k, now, Moved(c, s, now, i, s.staging, Sweep), 1, Answer);
  }

  lemma Exposed(c: Config, k: Context, now: int, s: Slot)
    requires Attainable(c, k, now, s) && !BytesKept(s)
    ensures !NeverLosesBytes(c)
  {
    var w := Among(k, now, s);
    assert Reachable(c, w) && k.source in w.slots && !BytesKept(w.slots[k.source]);
  }

  /** GC steps on the source, each applied to an explicit state. */
  lemma Collect(c: Config, k: Context, now: int, s: Slot)
    requires Attainable(c, k, now, s) && s.job == NoJob && s.lease.Lease? && s.lease.expires <= now
    requires s.row.Row? ==> s.row.state == Ready
    requires s.loc != NoPlace
    ensures Attainable(c, k, now, LeaseTaken(c, now, s, now).(job := Resolved(s.loc)))
  {
    var t := LeaseTaken(c, now, s, now);
    Proceed(c, k, now, s, GcClaim(now), t);
    Proceed(c, k, now, t, GcReclaim, t.(job := Reclaimed));
    Proceed(c, k, now, t.(job := Reclaimed), GcResolve, t.(job := Resolved(s.loc)));
  }

  /** Sweeping a source whose location still points to staging. */
  lemma SweepExposes(c: Config, now: int, s: Slot, i: nat)
    requires Idle(c, s, i)
    ensures !BytesKept(Step(c, now, Registered(c, s, now, i, NoLease, Sweep), 1, Answer))
  {}

  /** If the location update can fail, the staging object is removed although the ready
      record still points at it. */
  lemma IgnoredSaveLosesBytes(c: Config)
    requires WellFormed(c) && !c.savesReliable
    ensures !NeverLosesBytes(c)
  {
    var k := ALONE;
    StartReachable(c);
    var i :| i in c.instances;
    FreshAttainable(c, k, i, true);
    var s := Fresh(c, i, true);
    RegisteredAttainable(c, k, 0, s, i);
    SaveFailsStep(c, 0, s, i);
    Call(c, k, 0, Registered(c, s, 0, i, NoLease, Save), 1, Fault);
    Call(c, k, 0, Registered(c, s, 0, i, NoLease, Sweep), 1, Answer);
    SweepExposes(c, 0, s, i);
    Exposed(c, k, 0, Step(c, 0, Registered(c, s, 0, i, NoLease, Sweep), 1, Answer));
  }

  /** If reading the record can fail, GC takes a registered source for an abandoned upload. */
  lemma FailedReadLosesBytes(c: Config)
    requires WellFormed(c) && !c.readsReliable
    ensures !NeverLosesBytes(c)
  {
    var k := ALONE;
    StartReachable(c);
    var i :| i in c.instances;
    CrashedAttainable(c, k, i);
    DoubtLoses(c, k, c.ttl, Crashed(c, i));
  }

  /** Request 1 has registered the source and crashed before it could release the lease. */
  function Crashed(c: Config, i: nat): Slot { Registered(c, Fresh(c, i, true), 0, i, Lease(i, c.ttl), Dead) }

  lemma CrashedAttainable(c: Config, k: Context, i: nat)
    requires WellFormed(c) && i in c.instances && k == ALONE && Reachable(c, World(0, k.others))
    ensures Attainable(c, k, c.ttl, Crashed(c, i))
  {
    FreshAttainable(c, k, i, true);
    RegisteredAttainable(c, k, 0, Fresh(c, i, true), i);
    Proceed(c, k, 0, Registered(c, Fresh(c, i, true), 0, i, Lease(i, c.ttl), Free), Crash(1), Crashed(c, i));
    Later(c, k, 0, Crashed(c, i), c.ttl);
  }

  /** A candidate whose record read fails is removed although its record is ready. */
  lemma DoubtLoses(c: Config, k: Context, now: int, s: Slot)
    requires !c.readsReliable && Attainable(c, k, now, s) && s.job == NoJob && IsReady(s)
    requires s.lease.Lease? && s.lease.expires <= now && s.loc == Staging && s.linked
    ensures !NeverLosesBytes(c)
  {
    Collect(c, k, now, s);
    var s2 := LeaseTaken(c, now, s, now).(job := Resolved(Staging));
    Proceed(c, k, now, s2, GcCheck(Fault), s2.(job := Doomed(Staging)));
    var s3 := s2.(staging := NoBlob, job := Unlinking(Staging));
    Proceed(c, k, now, s2.(job := Doomed(Staging)), GcRemove(Answer), s3);
    Exposed(c, k, now, s3);
  }

  /** If GC claims leases under the identity of an instance that serves creates, Renew
      succeeds on the lease GC has just taken, and both work on the source. */
  lemma SharedIdentityLosesBytes(c: Config)
    requires WellFormed(c) && c.gc in c.instances && !c.gcAtomic
    ensures !NeverLosesBytes(c)
  {
    var k := ALONE;
    StartReachable(c);
    var i, t := c.gc, c.ttl;
    FreshAttainable(c, k, i, true);
    Later(c, k, 0, Fresh(c, i, true), t);
    Collect(c, k, t, Fresh(c, i, true));
    var s := LeaseTaken(c, t, Fresh(c, i, true), t);
    var d := s.(job := Doomed(Staging));
    Proceed(c, k, t, s.(job := Resolved(Staging)), GcCheck(Answer), d);
    MovedAttainable(c, k, t, d, i);
    UnlinkAfterSave(c, k, t, Moved(c, d, t, i, NoBlob, Done));
  }

  /** GC drops the location that a create has just repointed. */
  lemma UnlinkAfterSave(c: Config, k: Context, now: int, s: Slot)
    requires Attainable(c, k, now, s) && IsReady(s) && s.job == Doomed(Staging)
    ensures !NeverLosesBytes(c)
  {
    Proceed(c, k, now, s, GcRemove(Answer), CandidateRemoved(s, Answer));
    var t := CandidateRemoved(s, Answer);
    Proceed(c, k, now, t, GcUnlink(Answer), LocationDropped(t, Answer));
    Exposed(c, k, now, LocationDropped(t, Answer));
  }
}
