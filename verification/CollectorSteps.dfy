/**
  One collector candidate from the lease claim to its end, when the calls answer: what the six
  calls of module Registration do to a FileSource together, and what an orphan pass does.
*/
module CollectorSteps {
  import opened Base
  import opened Registration

  /** The candidate after its first three calls: its lease is taken, a stale claiming row is gone,
      its location is read. */
  function Prepared(c: Config, now: int, s: Slot, start: int): Slot {
    LocationResolved(RowReclaimed(c, LeaseTaken(c, now, s, start)))
  }

  /** The candidate after the last three, if it gets that far. */
  function Finished(c: Config, now: int, s: Slot, start: int): Slot {
    var t := Prepared(c, now, s, start);
    if !t.job.Resolved? then t
    else
      var u := RecordChecked(t, Answer);
      if !u.job.Doomed? then u else LocationDropped(CandidateRemoved(u, Answer), Answer)
  }

  /** Nobody has registered the upload behind the lapsed lease. */
  predicate Abandoned(s: Slot) { !IsReady(s) && s.loc != NoPlace && s.linked }

  /** A candidate ends with its job done and its lease the collector's.  If the upload is abandoned
      its object and its location are gone, and the object of the other zone is not; otherwise
      location and objects are as they were.  A claiming row goes exactly if it is older than a
      lease time to live, a ready one never. */
  lemma CandidateIff(c: Config, now: int, s: Slot, start: int)
    requires Enabled(c, now, s, GcClaim(start))
    ensures var z := Finished(c, now, s, start);
      && z.job == NoJob && z.lease == Lease(c.gc, now + GC_CLAIM_SECONDS)
      && (Abandoned(s) ==>
            && z.loc == NoPlace && Object(z, s.loc) == NoBlob
            && (if s.loc == Staging then z.persistent == s.persistent else z.staging == s.staging))
      && (!Abandoned(s) ==> z.loc == s.loc && z.staging == s.staging && z.persistent == s.persistent)
      && z.row == (if s.row.Row? && s.row.state == Claiming && s.row.createdAt <= start - c.ttl then NoRow else s.row)
      && z.procs == s.procs && z.seen == s.seen
  {}

  /** These are the steps of the system. */
  lemma FirstSteps(c: Config, now: int, s: Slot, start: int)
    requires Enabled(c, now, s, GcClaim(start))
    ensures var s1 := Apply(c, now, s, GcClaim(start));
      && Enabled(c, now, s1, GcReclaim)
      && var s2 := Apply(c, now, s1, GcReclaim);
      && Enabled(c, now, s2, GcResolve)
      && Apply(c, now, s2, GcResolve) == Prepared(c, now, s, start)
  {}

  lemma LastSteps(c: Config, now: int, s: Slot, start: int)
    requires Enabled(c, now, s, GcClaim(start)) && Prepared(c, now, s, start).job.Resolved?
    ensures var t := Prepared(c, now, s, start);
      && Enabled(c, now, t, GcCheck(Answer))
      && var u := Apply(c, now, t, GcCheck(Answer));
      && (!u.job.Doomed? ==> u == Finished(c, now, s, start))
      && (u.job.Doomed? ==>
            && Enabled(c, now, u, GcRemove(Answer))
            && var v := Apply(c, now, u, GcRemove(Answer));
            && Enabled(c, now, v, GcUnlink(Answer))
            && Apply(c, now, v, GcUnlink(Answer)) == Finished(c, now, s, start))
  {}

  /** A pass that misses nothing may delete the persistent object exactly if it is older than the
      cutoff and the location does not refer to it. */
  lemma PassIff(c: Config, now: int, s: Slot, cutoff: int)
    requires Enabled(c, now, s, PassBegin(cutoff, false))
    ensures var t := Apply(c, now, s, PassBegin(cutoff, false));
      && (Enabled(c, now, t, PassDelete) <==>
            s.persistent.Blob? && s.persistent.mtime <= cutoff && !(s.loc == Persistent && s.linked))
      && (Enabled(c, now, t, PassDelete) ==> Apply(c, now, t, PassDelete) == s.(persistent := NoBlob))
  {}
}
