/**
  The claim / lease / garbage-collection protocol around one FileSource, at the
  granularity of single port calls.

  Everything the protocol does is keyed by the FileSource (metadata row, location,
  staging and persistent object, in-flight lease), so the shared state is a map from
  FileSource to a `Slot`, plus one clock.  A `Proc` is one call of
  CreateFileMetadata::Execute; its `pc` is the next port call it will make.  A step of
  a process is a function of the slot and of the `Reply` the port gives.
  The garbage collector's lease candidate is a second kind of process (`job`), its
  orphan pass a third (`pass`).
*/
module Registration {
  import opened Base

  type Content = string

  /** Where a location points; NoPlace if there is no location. */
  datatype Place = NoPlace | Staging | Persistent
  datatype RowState = Claiming | Ready
  /** A metadata row; its id is the request that inserted it (ids are generated per request). */
  datatype Row = NoRow | Row(id: nat, state: RowState, createdAt: int, sum: Content)
  datatype Blob = NoBlob | Blob(data: Content, mtime: int)
  datatype Lease = NoLease | Lease(owner: nat, expires: int)

  /** The next port call of a create request, in source order. */
  datatype Pc =
    | Check      // idempotent fast path: read the ready record
    | Claim      // ClaimForWrite
    | Wait       // WaitForExistingClaim polls
    | Renew      // EnsureLeaseOwnership, first attempt
    | Acquire    // EnsureLeaseOwnership, fallback
    | Arm        // start the renewer thread
    | Find       // locations.FindByFileSource, and what it points to
    | Copy       // staging -> persistent
    | Stat       // already migrated: stat the persistent object
    | Reread     // the copy failed: has somebody else registered the source?
    | Sum        // checksum of the persistent object
    | Mark       // MarkReady
    | RbCheck    // rollback: is there a ready record?
    | RbRemove   // rollback: remove the persistent object
    | Unclaim    // ReleaseClaim of the abort
    | Yield      // ReleaseClaim before returning somebody else's record
    | Free       // stop the renewer, release the lease
    | Save       // repoint the location to persistent
    | Sweep      // remove the staging object
    | Done
    | Dead       // the process crashed

  /** What the caller is told: the record this request made, or one that was there. */
  datatype Outcome = Pending | Failed | Created(id: nat) | Existing(id: nat)

  predicate Succeeds(o: Outcome) { o.Created? || o.Existing? }

  datatype Proc = Proc(
    inst: nat, pc: Pc,
    guarded: bool,          // the lease guard exists (lease was ensured)
    lost: bool,             // renewer.failed(): the latest renewal failed
    found: Place,           // zone of the location read in step Find
    claimedAt: int, copiedAt: int,
    beat: int,              // when its latest lease call took effect
    sum: Content,
    committed: bool,        // history: MarkReady took effect
    forsaken: bool,         // history: gave up with its claiming row still in place
    outcome: Outcome)

  predicate Ended(x: Proc) { x.pc.Done? || x.pc.Dead? }

  /** A request that has just arrived. */
  function Newcomer(inst: nat): Proc {
    Proc(inst, Check, false, false, NoPlace, 0, 0, 0, "", false, false, Pending)
  }

  /** One expired-lease candidate of a GC run; `start` is the clock reading of that run. */
  datatype Job =
    | NoJob
    | Claimed(start: int)
    | Reclaimed
    | Resolved(zone: Place)
    | Doomed(zone: Place)      // no ready record was seen
    | Unlinking(zone: Place)   // object removed, location still to be deleted

  /** The job has read a location in zone z. */
  predicate Marks(j: Job, z: Place) { (j.Resolved? || j.Doomed? || j.Unlinking?) && j.zone == z }

  /** An orphan pass as one slot sees it: was the persistent object referenced in the snapshot? */
  datatype Pass = NoPass | Pass(referenced: bool, cutoff: int)

  datatype Seen = Returned(id: nat) | Erased

  datatype Slot = Slot(
    issued: bool,
    row: Row, loc: Place,
    linked: bool,           // the location holds a physical reference
    staging: Blob, persistent: Blob,
    lease: Lease, procs: map<nat, Proc>,
    job: Job, pass: Pass,
    seen: seq<Seen>,        // history: record ids handed out, and deletions
    copier: Option<nat>,    // history: who committed while the location was in staging
    moved: bool)            // history: a location update to persistent has happened

  const EMPTY := Slot(false, NoRow, NoPlace, false, NoBlob, NoBlob, NoLease, map[], NoJob, NoPass, [], None, false)

  /** How a port call ends: as specified, with an error and no effect, with an error after
      taking effect, or (step Find only) with a location for which there is no persistent
      container. */
  datatype Reply = Answer | Fault | Torn | Unresolved

  predicate Effective(r: Reply) { r.Answer? || r.Torn? }

  /** Deployment: the instances that serve creates, the identity under which GC claims
      leases, the lease time to live and the orphan grace period, and four facts about
      the environment. */
  datatype Config = Config(
    instances: set<nat>, gc: nat, ttl: int, grace: int,
    gcAtomic: bool,       // no create call runs between the calls of one GC candidate
    savesReliable: bool,  // locations.Save after MarkReady does not fail
    readsReliable: bool,  // GetLatestByFileSource does not fail for transient reasons
    listingStable: bool)  // ReferencedRefs misses no location (see module PagedPass)

  /** Seconds for which ClaimExpired takes a lease over. */
  const GC_CLAIM_SECONDS := 60

  predicate WellFormed(c: Config) {
    c.instances != {} && 0 < c.ttl && 0 < c.grace
  }

  predicate IsReady(s: Slot) { s.row.Row? && s.row.state == Ready }

  predicate ClaimedBy(s: Slot, p: nat) {
    s.row.Row? && s.row.id == p && s.row.state == Claiming
  }

  function Object(s: Slot, z: Place): Blob {
    if z == Staging then s.staging else s.persistent
  }

  function WithObject(s: Slot, z: Place, o: Blob): Slot {
    if z == Staging then s.(staging := o) else s.(persistent := o)
  }

  /** The headline property for one FileSource: a ready record has a location that refers to
      an object, and the object is in that location's zone; once in persistent, its bytes are
      those checksummed. */
  predicate BytesKept(s: Slot) {
    IsReady(s) ==>
      && s.loc != NoPlace && s.linked
      && Object(s, s.loc).Blob?
      && (s.loc == Persistent ==> s.persistent.data == s.row.sum)
  }

  // ---------------------------------------------------------------------------
  //  Steps of a create request
  // ---------------------------------------------------------------------------

  function Put(s: Slot, p: nat, x: Proc): Slot { s.(procs := s.procs[p := x]) }

  predicate Holds(s: Slot, x: Proc) { s.lease.Lease? && s.lease.owner == x.inst }

  /** MarkReady takes effect; both lease boundary checks are part of the call they precede. */
  predicate Commits(s: Slot, p: nat, x: Proc, r: Reply) {
    !x.lost && Effective(r) && ClaimedBy(s, p)
  }

  /** What the code sees of a port call. */
  datatype Heard =
    | Err | Fine
    | Record(id: nat)      // a ready record
    | Won | Busy           // ClaimForWrite: claimed, or somebody else is claiming
    | Missing              // Renew: no such lease, or another owner's
    | Zone(place: Place)   // the location
    | Dangling             // a location that leads to no object

  function Latest(s: Slot, r: Reply): Heard {
    if r == Answer && IsReady(s) then Record(s.row.id) else Err
  }

  function Whether(b: bool): Heard { if b then Fine else Err }

  /** The ports' answers. */
  function Hear(now: int, s: Slot, p: nat, x: Proc, r: Reply): Heard {
    match x.pc
    case Check | Reread | RbCheck => Latest(s, r)
    case Claim =>
      if r != Answer then Err
      else if s.row.NoRow? then Won
      else if IsReady(s) then Record(s.row.id) else Busy
    case Wait => if r == Answer && !IsReady(s) then Busy else Latest(s, r)
    case Renew => if r == Answer && !Holds(s, x) then Missing else Whether(r == Answer)
    case Acquire => Whether(r == Answer && Vacant(now, s))
    case Find =>
      if s.loc == NoPlace || !(r == Answer || r == Unresolved) then Err
      else if r == Unresolved || !s.linked then Dangling else Zone(s.loc)
    case Copy => Whether(r == Answer && s.staging.Blob?)
    case Stat => Whether(r == Answer && s.persistent.Blob?)
    case Sum => Whether(!x.lost && r == Answer && s.persistent.Blob?)
    case Mark => Whether(r == Answer && Commits(s, p, x, r))
    case _ => Whether(r == Answer)
  }

  /** The control flow of CreateFileMetadata::Execute: which call follows, given what was heard. */
  function NextPc(x: Proc, h: Heard): Pc {
    match x.pc
    case Check => if h.Record? then Done else Claim
    case Claim => if h.Won? then Renew else if h.Busy? then Wait else Done
    case Wait => if h.Busy? then Wait else Done
    case Renew => if h.Fine? then Arm else if h.Missing? then Acquire else Unclaim
    case Acquire => if h.Fine? then Arm else Unclaim
    case Arm => if h.Fine? then Find else Unclaim
    case Find => if h.Dangling? then Free else if !h.Zone? then Unclaim else if h.place == Staging then Copy else Stat
    case Copy => if h.Fine? then Sum else Reread
    case Stat => if h.Fine? then Sum else RbCheck
    case Reread => if h.Record? then Yield else RbCheck
    case Sum => if h.Fine? then Mark else RbCheck
    case Mark => if h.Fine? then Free else RbCheck
    case RbCheck => if h.Record? then Unclaim else RbRemove
    case RbRemove => Unclaim
    case Unclaim => if x.guarded then Free else Done
    case Yield => Free
    case Free => if x.outcome.Created? then Save else Done
    case Save => if x.found == Staging then Sweep else Done
    case Sweep => Done
    case Done => Done
    case Dead => Dead
  }

  /** What the request will tell its caller: an id it read or committed, or that it gave up. */
  function Told(x: Proc, p: nat, h: Heard): Outcome {
    if x.pc.Mark? && h.Fine? then Created(p)
    else if h.Record? && !x.pc.RbCheck? then Existing(h.id)
    else if x.pc.Unclaim? || h.Dangling? || ((x.pc.Claim? || x.pc.Wait?) && h.Err?) then Failed
    else x.outcome
  }

  predicate NextGuarded(x: Proc, h: Heard) { x.guarded || ((x.pc.Renew? || x.pc.Acquire?) && h.Fine?) }

  function NextFound(x: Proc, h: Heard): Place { if h.Zone? then h.place else x.found }

  /** What the code itself keeps track of. */
  function Next(x: Proc, p: nat, h: Heard): Proc {
    x.(pc := NextPc(x, h), outcome := Told(x, p, h), guarded := NextGuarded(x, h), found := NextFound(x, h))
  }

  /** The request gives up here although its claiming row stays: ClaimForWrite inserted the row
      and reported an error, the location has no physical reference (or its partition no
      container), or ReleaseClaim had no effect. */
  predicate Forsakes(s: Slot, x: Proc, r: Reply) {
    || (x.pc.Claim? && r == Torn && s.row.NoRow?)
    || (x.pc.Find? && s.loc != NoPlace && (r == Unresolved || (r == Answer && !s.linked)))
    || ((x.pc.Unclaim? || x.pc.Yield?) && !Effective(r) && !x.committed)
  }

  predicate Vacant(now: int, s: Slot) { s.lease.NoLease? || s.lease.expires <= now }

  /** The call secures the lease for another ttl. */
  predicate Beats(now: int, s: Slot, x: Proc, r: Reply) {
    Effective(r) && ((x.pc.Renew? && Holds(s, x)) || (x.pc.Acquire? && Vacant(now, s)))
  }

  /** The request after its call, with times, digest and history. */
  function After(now: int, s: Slot, p: nat, x: Proc, r: Reply): Proc {
    Next(x, p, Hear(now, s, p, x, r)).(
      claimedAt := if x.pc.Claim? then now else x.claimedAt,
      copiedAt := if x.pc.Copy? then now else x.copiedAt,
      beat := if Beats(now, s, x, r) then now else x.beat,
      sum := if x.pc.Sum? && s.persistent.Blob? then s.persistent.data else x.sum,
      committed := x.committed || (x.pc.Mark? && Commits(s, p, x, r)),
      forsaken := x.forsaken || Forsakes(s, x, r))
  }

  function RowAfter(now: int, s: Slot, p: nat, x: Proc, r: Reply): Row {
    if x.pc.Claim? && Effective(r) && s.row.NoRow? then Row(p, Claiming, now, "")
    else if x.pc.Mark? && Commits(s, p, x, r) then s.row.(state := Ready, sum := x.sum)
    else if (x.pc.Unclaim? || x.pc.Yield?) && Effective(r) && ClaimedBy(s, p) then NoRow
    else s.row
  }

  function LeaseAfter(c: Config, now: int, s: Slot, x: Proc, r: Reply): Lease {
    if Beats(now, s, x, r) then Lease(x.inst, now + c.ttl)
    else if x.pc.Free? && Effective(r) && Holds(s, x) then NoLease
    else s.lease
  }

  function PersistentAfter(now: int, s: Slot, x: Proc, r: Reply): Blob {
    if x.pc.Copy? && Effective(r) && s.staging.Blob? then Blob(s.staging.data, now)
    else if x.pc.RbRemove? && Effective(r) then NoBlob
    else s.persistent
  }

  /** What the call does to the shared state. */
  function Effect(c: Config, now: int, s: Slot, p: nat, x: Proc, r: Reply): Slot {
    var saved := x.pc.Save? && Effective(r);
    s.(row := RowAfter(now, s, p, x, r),
       lease := LeaseAfter(c, now, s, x, r),
       persistent := PersistentAfter(now, s, x, r),
       staging := if x.pc.Sweep? && Effective(r) then NoBlob else s.staging,
       loc := if saved then Persistent else s.loc, linked := saved || s.linked, moved := saved || s.moved,
       copier := if x.pc.Mark? && Commits(s, p, x, r) && x.found == Staging then Some(p) else s.copier)
  }

  /** The history grows when a request comes to hold an id. */
  function Announced(s: Slot, x: Proc, y: Proc): seq<Seen> {
    if Succeeds(y.outcome) && y.outcome != x.outcome then s.seen + [Returned(y.outcome.id)] else s.seen
  }

  /** One call of request p. */
  function Step(c: Config, now: int, s: Slot, p: nat, r: Reply): Slot
    requires p in s.procs
  {
    var x := s.procs[p];
    var y := After(now, s, p, x, r);
    Put(Effect(c, now, s, p, x, r), p, y).(seen := Announced(s, x, y))
  }

  /** The renewer thread of request p runs from Arm until the guard stops it in Free. */
  predicate Renewing(x: Proc) { x.guarded && (InClaim(x.pc) || x.pc.Free?) }

  /** One iteration of it. */
  function RenewerTurn(c: Config, now: int, s: Slot, p: nat, r: Reply): Slot
    requires p in s.procs
  {
    var x := s.procs[p];
    if Effective(r) && Holds(s, x)
    then Put(s.(lease := Lease(x.inst, now + c.ttl)), p, x.(lost := r != Answer, beat := now))
    else Put(s, p, x.(lost := true))
  }

  // ---------------------------------------------------------------------------
  //  Steps of the garbage collector, of clients and of the environment
  // ---------------------------------------------------------------------------

  datatype Action =
    | Issue(inst: nat, leased: bool, linked: bool)   // a location appears
    | Upload(data: Content)                // client writes the staging object
    | Start(p: nat, inst: nat)             // a create request arrives
    | Run(p: nat, r: Reply)                // its next port call
    | RunRenewer(p: nat, r: Reply)
    | Crash(p: nat)
    | Delete                               // DeleteFileMetadata, as one step
    | GcClaim(start: int)                  // ClaimExpired returns this source
    | GcReclaim                            // ReclaimStaleClaiming
    | GcResolve
    | GcCheck(r: Reply)                    // HasMetadataRecord
    | GcRemove(r: Reply)
    | GcUnlink(r: Reply)
    | GcCrash
    | PassBegin(cutoff: int, missed: bool) // ReferencedRefs; the paging may miss this source
    | PassDelete
    | PassEnd

  predicate IsGc(a: Action) {
    a.GcClaim? || a.GcReclaim? || a.GcResolve? || a.GcCheck? || a.GcRemove? || a.GcUnlink? || a.GcCrash?
  }

  /** May action a happen here?  Apart from the obvious guards this is where the four
      environment facts of the configuration enter. */
  predicate Enabled(c: Config, now: int, s: Slot, a: Action) {
    && (c.gcAtomic && s.job != NoJob ==> IsGc(a))
    && match a
       case Issue(i, _, _) => !s.issued && i in c.instances
       case Upload(_) => s.issued
       case Start(p, i) => s.issued && p !in s.procs && i in c.instances
       case Run(p, r) =>
         && p in s.procs
         && (c.savesReliable && s.procs[p].pc == Save ==> Effective(r))
         && (c.readsReliable && s.procs[p].pc == RbCheck ==> r == Answer)
       case RunRenewer(p, _) => p in s.procs && Renewing(s.procs[p])
       case Crash(p) => p in s.procs && s.procs[p].pc != Done
       case Delete => IsReady(s)
       case GcClaim(start) =>
         s.job == NoJob && start <= now && s.lease.Lease? && s.lease.expires <= now
       case GcReclaim => s.job != NoJob && s.job.Claimed?
       case GcResolve => s.job.Reclaimed?
       case GcCheck(r) => s.job != NoJob && s.job.Resolved? && (c.readsReliable ==> r == Answer)
       case GcRemove(_) => s.job != NoJob && s.job.Doomed?
       case GcUnlink(_) => s.job != NoJob && s.job.Unlinking?
       case GcCrash => s.job != NoJob
       case PassBegin(cutoff, missed) =>
         s.issued && s.pass.NoPass? && cutoff <= now - c.grace && (c.listingStable ==> !missed)
       case PassDelete =>
         && s.pass.Pass? && !s.pass.referenced
         && s.persistent.Blob? && s.persistent.mtime <= s.pass.cutoff
       case PassEnd => s.pass.Pass?
  }

  function Deleted(s: Slot): Slot {
    var gone := if s.loc != NoPlace && s.linked then WithObject(s, s.loc, NoBlob) else s;
    gone.(loc := NoPlace, row := NoRow, seen := s.seen + [Erased])
  }

  function LeaseTaken(c: Config, now: int, s: Slot, start: int): Slot {
    s.(lease := Lease(c.gc, now + GC_CLAIM_SECONDS), job := Claimed(start))
  }

  /** Reclaim a claiming row, but only one older than a lease time to live. */
  function RowReclaimed(c: Config, s: Slot): Slot
    requires s.job.Claimed?
  {
    var stale := s.row.Row? && s.row.state == Claiming && s.row.createdAt <= s.job.start - c.ttl;
    s.(row := if stale then NoRow else s.row, job := Reclaimed)
  }

  function LocationResolved(s: Slot): Slot {
    s.(job := if s.loc != NoPlace then Resolved(s.loc) else NoJob)
  }

  /** A ready record protects the source, and so does a location that refers to nothing. */
  function RecordChecked(s: Slot, r: Reply): Slot
    requires s.job.Resolved?
  {
    s.(job := if (r == Answer && IsReady(s)) || !s.linked then NoJob else Doomed(s.job.zone))
  }

  function CandidateRemoved(s: Slot, r: Reply): Slot
    requires s.job.Doomed?
  {
    (if Effective(r) then WithObject(s, s.job.zone, NoBlob) else s)
      .(job := if r == Answer then Unlinking(s.job.zone) else NoJob)
  }

  function LocationDropped(s: Slot, r: Reply): Slot {
    (if Effective(r) then s.(loc := NoPlace) else s).(job := NoJob)
  }

  /** ReferencedRefs counts locations with a physical reference, if the paging meets them. */
  function PassOver(s: Slot, cutoff: int, missed: bool): Pass {
    Pass(s.loc == Persistent && s.linked && !missed, cutoff)
  }

  function Apply(c: Config, now: int, s: Slot, a: Action): Slot
    requires Enabled(c, now, s, a)
  {
    match a
    case Issue(i, leased, linked) =>
      s.(issued := true, loc := Staging, linked := linked, staging := Blob("", now),
         lease := if leased then Lease(i, now + c.ttl) else NoLease)
    case Upload(d) => s.(staging := Blob(d, now))
    case Start(p, i) => Put(s, p, Newcomer(i))
    case Run(p, r) => Step(c, now, s, p, r)
    case RunRenewer(p, r) => RenewerTurn(c, now, s, p, r)
    case Crash(p) => Put(s, p, s.procs[p].(pc := Dead))
    case Delete => Deleted(s)
    case GcClaim(start) => LeaseTaken(c, now, s, start)
    case GcReclaim => RowReclaimed(c, s)
    case GcResolve => LocationResolved(s)
    case GcCheck(r) => RecordChecked(s, r)
    case GcRemove(r) => CandidateRemoved(s, r)
    case GcUnlink(r) => LocationDropped(s, r)
    case GcCrash => s.(job := NoJob)
    case PassBegin(cutoff, missed) => s.(pass := PassOver(s, cutoff, missed))
    case PassDelete => s.(persistent := NoBlob, pass := NoPass)
    case PassEnd => s.(pass := NoPass)
  }

  // ---------------------------------------------------------------------------
  //  Time
  // ---------------------------------------------------------------------------

  /** Between ClaimForWrite and ReleaseClaim / MarkReady. */
  predicate InClaim(pc: Pc) {
    (pc.Renew? || pc.Acquire? || pc.Arm? || pc.Find? || pc.Copy? || pc.Stat? || pc.Reread? || pc.Sum? || pc.Mark?
     || pc.RbCheck? || pc.RbRemove? || pc.Unclaim? || pc.Yield?)
  }

  /** Its claiming row is in place: it works under the claim, or has forsaken it and is about to
      release the lease. */
  predicate Holding(x: Proc) { !x.committed && (InClaim(x.pc) || (x.pc.Free? && x.forsaken)) }

  /** Holds the claim but has not ensured the lease. */
  predicate Pledged(x: Proc) { Holding(x) && !x.guarded }

  /** Holds both the claim and the lease guard: may touch the persistent object. */
  predicate Critical(x: Proc) { Holding(x) && x.guarded }

  /** Copied the object and has not yet repointed the location. */
  predicate Ferrying(x: Proc) {
    && x.found == Staging
    && ((x.pc.Sum? || x.pc.Mark?) || ((x.pc.Free? || x.pc.Save?) && x.committed && x.outcome.Created?))
  }

  /** What the deployment promises about durations, for processes that are still alive:
      a lease is ensured within one ttl of the claim, a holder renews within one ttl of its
      latest renewal (module LeaseRenewer says when its loop does),
      a create takes less than the orphan grace period, a GC candidate is finished within
      the time its claim lasts. */
  predicate InTime(c: Config, now: int, s: Slot) {
    && (forall p | p in s.procs ::
          && (Pledged(s.procs[p]) ==> now - s.procs[p].claimedAt < c.ttl)
          && (Critical(s.procs[p]) && Holds(s, s.procs[p]) ==> now < s.procs[p].beat + c.ttl)
          && (Ferrying(s.procs[p]) ==> now - s.procs[p].copiedAt < c.grace))
    && (s.job != NoJob && s.lease.Lease? ==> now < s.lease.expires)
  }

  // ---------------------------------------------------------------------------
  //  Whole system
  // ---------------------------------------------------------------------------

  type FileSource = string

  datatype World = World(now: int, slots: map<FileSource, Slot>)

  datatype Event = On(source: FileSource, act: Action) | Tick(to: int)

  const GENESIS := World(0, map[])

  function SlotOf(w: World, f: FileSource): Slot {
    if f in w.slots then w.slots[f] else EMPTY
  }

  predicate Possible(c: Config, w: World, e: Event) {
    match e
    case On(f, a) => Enabled(c, w.now, SlotOf(w, f), a)
    case Tick(t) => w.now <= t && forall f | f in w.slots :: InTime(c, t, w.slots[f])
  }

  function Advance(c: Config, w: World, e: Event): World
    requires Possible(c, w, e)
  {
    match e
    case On(f, a) => w.(slots := w.slots[f := Apply(c, w.now, SlotOf(w, f), a)])
    case Tick(t) => w.(now := t)
  }

  /** Some run of the system under c leads from v to w. */
  ghost predicate Leads(c: Config, v: World, run: seq<Event>, w: World)
    decreases run
  {
    if run == [] then v == w
    else Possible(c, v, run[0]) && Leads(c, Advance(c, v, run[0]), run[1..], w)
  }

  ghost predicate Reachable(c: Config, w: World) {
    exists run :: Leads(c, GENESIS, run, w)
  }
}
