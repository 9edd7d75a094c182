/**
  Where the bytes behind a ready record come from: whatever happens in a run, an object in the
  persistent zone holds what a client had last written into the staging object of that FileSource
  when some create request copied it.
*/
module UploadedBytes {
  import opened Base
  import opened Registration
  import opened RegistrationInvariant
  import opened RegistrationSafety
  import RegistrationTheorems

  /** The content that the latest client write of the run put into staging; an upload location is
      issued with an empty object. */
  function LatestUpload(run: seq<Event>, f: FileSource): Option<Content> {
    if run == [] then None
    else
      var e := run[|run| - 1];
      if e.On? && e.source == f && e.act.Upload? then Some(e.act.data)
      else if e.On? && e.source == f && e.act.Issue? then Some("")
      else LatestUpload(run[..|run| - 1], f)
  }

  /** Request p is about to copy, and staging holds d. */
  predicate AboutToCopy(s: Slot, p: nat, d: Content) {
    p in s.procs && s.procs[p].pc.Copy? && s.staging.Blob? && s.staging.data == d
  }

  /** Event n of the run is a copy call on f, and the content it finds in staging is d, which is
      what a client has written there last. */
  ghost predicate CopiedAt(c: Config, run: seq<Event>, n: nat, f: FileSource, d: Content) {
    && n < |run| && run[n].On? && run[n].source == f && run[n].act.Run?
    && LatestUpload(run[..n], f) == Some(d)
    && exists v :: Leads(c, GENESIS, run[..n], v) && AboutToCopy(SlotOf(v, f), run[n].act.p, d)
  }

  ghost predicate Copied(c: Config, run: seq<Event>, f: FileSource, d: Content) {
    exists n: nat :: CopiedAt(c, run, n, f, d)
  }

  ghost predicate Traced(c: Config, run: seq<Event>, f: FileSource, s: Slot) {
    && (s.staging.Blob? ==> LatestUpload(run, f) == Some(s.staging.data))
    && (s.persistent.Blob? ==> Copied(c, run, f, s.persistent.data))
  }

  lemma LatestOn(run: seq<Event>, e: Event, f: FileSource)
    ensures LatestUpload(run + [e], f) ==
      if e.On? && e.source == f && e.act.Upload? then Some(e.act.data)
      else if e.On? && e.source == f && e.act.Issue? then Some("")
      else LatestUpload(run, f)
  {
    assert (run + [e])[..|run|] == run;
  }

  lemma CopiedOn(c: Config, run: seq<Event>, e: Event, f: FileSource, d: Content)
    requires Copied(c, run, f, d)
    ensures Copied(c, run + [e], f, d)
  {
    var n: nat :| CopiedAt(c, run, n, f, d);
    assert (run + [e])[..n] == run[..n];
    assert CopiedAt(c, run + [e], n, f, d);
  }

  lemma CopiedNow(c: Config, run: seq<Event>, v: World, e: Event, f: FileSource, d: Content)
    requires Leads(c, GENESIS, run, v) && e.On? && e.source == f && e.act.Run?
    requires AboutToCopy(SlotOf(v, f), e.act.p, d) && LatestUpload(run, f) == Some(d)
    ensures Copied(c, run + [e], f, d)
  {
    assert (run + [e])[..|run|] == run;
    assert CopiedAt(c, run + [e], |run|, f, d);
  }

  /** What a request's call does to the objects. */
  lemma StepObjects(c: Config, now: int, s: Slot, p: nat, r: Reply)
    requires p in s.procs
    ensures var t := Step(c, now, s, p, r);
      && (t.staging.Blob? ==> t.staging == s.staging)
      && (t.persistent.Blob? ==> t.persistent == s.persistent || AboutToCopy(s, p, t.persistent.data))
  {}

  /** The collector only removes objects. */
  lemma CollectorObjects(c: Config, now: int, s: Slot, a: Action)
    requires Enabled(c, now, s, a) && IsGc(a)
    ensures var t := Apply(c, now, s, a);
      (t.staging.Blob? ==> t.staging == s.staging) && (t.persistent.Blob? ==> t.persistent == s.persistent)
  {}

  /** Everybody else removes objects, and only clients write into staging. */
  lemma OthersObjects(c: Config, now: int, s: Slot, a: Action)
    requires Enabled(c, now, s, a) && !a.Run?
    ensures var t := Apply(c, now, s, a);
      && (t.staging.Blob? ==> t.staging == if a.Upload? then Blob(a.data, now) else if a.Issue? then Blob("", now) else s.staging)
      && (t.persistent.Blob? ==> t.persistent == s.persistent)
  {
    if IsGc(a) { CollectorObjects(c, now, s, a); }
  }

  lemma ActionTraced(c: Config, run: seq<Event>, v: World, f: FileSource, a: Action)
    requires Leads(c, GENESIS, run, v) && Traced(c, run, f, SlotOf(v, f)) && Enabled(c, v.now, SlotOf(v, f), a)
    ensures Traced(c, run + [On(f, a)], f, Apply(c, v.now, SlotOf(v, f), a))
  {
    var s, t := SlotOf(v, f), Apply(c, v.now, SlotOf(v, f), a);
    LatestOn(run, On(f, a), f);
    if a.Run? { StepObjects(c, v.now, s, a.p, a.r); } else { OthersObjects(c, v.now, s, a); }
    if t.persistent.Blob? {
      if t.persistent == s.persistent {
        CopiedOn(c, run, On(f, a), f, t.persistent.data);
      } else {
        CopiedNow(c, run, v, On(f, a), f, t.persistent.data);
      }
    }
  }

  lemma EventTraced(c: Config, run: seq<Event>, v: World, e: Event, f: FileSource)
    requires Leads(c, GENESIS, run, v) && Traced(c, run, f, SlotOf(v, f)) && Possible(c, v, e)
    ensures Traced(c, run + [e], f, SlotOf(Advance(c, v, e), f))
  {
    if e.On? && e.source == f {
      ActionTraced(c, run, v, f, e.act);
    } else {
      var s := SlotOf(v, f);
      assert SlotOf(Advance(c, v, e), f) == s;
      LatestOn(run, e, f);
      if s.persistent.Blob? { CopiedOn(c, run, e, f, s.persistent.data); }
    }
  }

  lemma {:induction false} RunTraced(c: Config, past: seq<Event>, v: World, run: seq<Event>, w: World, f: FileSource)
    requires Leads(c, GENESIS, past, v) && Traced(c, past, f, SlotOf(v, f)) && Leads(c, v, run, w)
    ensures Traced(c, past + run, f, SlotOf(w, f))
    decreases run
  {
    if run == [] {
      assert past + run == past;
    } else {
      EventTraced(c, past, v, run[0], f);
      RegistrationTheorems.LeadsOn(c, GENESIS, past, v, run[0]);
      RunTraced(c, past + [run[0]], Advance(c, v, run[0]), run[1..], w, f);
      assert past + [run[0]] + run[1..] == past + run;
    }
  }

  /** In every run of every deployment the persistent object holds what a request found in staging
      when it copied, and that is what a client had written there last. */
  lemma ObjectsUploaded(c: Config, run: seq<Event>, w: World, f: FileSource)
    requires Leads(c, GENESIS, run, w)
    ensures var s := SlotOf(w, f);
      && (s.staging.Blob? ==> LatestUpload(run, f) == Some(s.staging.data))
      && (s.persistent.Blob? ==> exists n: nat :: CopiedAt(c, run, n, f, s.persistent.data))
  {
    assert Leads(c, GENESIS, [], GENESIS);
    RunTraced(c, [], GENESIS, run, w, f);
    assert [] + run == run;
  }

  /** A ready record has its uploaded bytes: once its location is persistent those that a request
      has copied, with the checksum of the record; until then those that the client has written
      last. */
  ghost predicate HoldsUpload(c: Config, run: seq<Event>, f: FileSource, s: Slot) {
    IsReady(s) ==>
      && s.linked
      && if s.loc == Persistent
         then s.persistent.Blob? && s.persistent.data == s.row.sum && exists n: nat :: CopiedAt(c, run, n, f, s.row.sum)
         else s.loc == Staging && s.staging.Blob? && LatestUpload(run, f) == Some(s.staging.data)
  }

  /** In every deployment: what keeps its bytes keeps uploaded bytes. */
  lemma KeptAreUploaded(c: Config, run: seq<Event>, w: World, f: FileSource)
    requires Leads(c, GENESIS, run, w) && f in w.slots
    ensures BytesKept(w.slots[f]) <==> HoldsUpload(c, run, f, w.slots[f])
  {
    ObjectsUploaded(c, run, w, f);
  }

  lemma RecordHoldsUpload(c: Config, run: seq<Event>, w: World, f: FileSource)
    requires WellFormed(c) && Sound(c) && Leads(c, GENESIS, run, w) && f in w.slots
    ensures HoldsUpload(c, run, f, w.slots[f])
  {
    SoundNeverLosesBytes(c);
    assert Reachable(c, w) && BytesKept(w.slots[f]);
    KeptAreUploaded(c, run, w, f);
  }

  /** At the end of every run of c, every ready record holds its upload. */
  ghost predicate NeverLosesUploads(c: Config) {
    forall run, w, f :: Leads(c, GENESIS, run, w) && f in w.slots ==> HoldsUpload(c, run, f, w.slots[f])
  }

  lemma UploadsIff(c: Config)
    ensures NeverLosesUploads(c) <==> NeverLosesBytes(c)
  {
    if NeverLosesBytes(c) {
      forall run, w, f | Leads(c, GENESIS, run, w) && f in w.slots ensures HoldsUpload(c, run, f, w.slots[f]) {
        assert Reachable(c, w) && BytesKept(w.slots[f]);
        KeptAreUploaded(c, run, w, f);
      }
    }
    if NeverLosesUploads(c) {
      forall w, f | Reachable(c, w) && f in w.slots ensures BytesKept(w.slots[f]) {
        var run :| Leads(c, GENESIS, run, w);
        KeptAreUploaded(c, run, w, f);
      }
    }
  }
}
