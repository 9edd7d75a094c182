/**
  The renewer's loop and the step system joined: in a run of the whole system whose lease calls
  for a request take effect when those of a renewer's log do, the request meets what the protocol
  asks of a lease holder, and the collector cannot claim its source.
*/
module HeldLease {
  import opened Base
  import opened Registration
  import opened RegistrationInvariant
  import opened RegistrationSafety
  import RunLogs
  import RegistrationTheorems
  import LeaseRenewer

  /** A lease call of a request, at the moment of its effect; `ok` is what the caller is told. */
  datatype Beat = Beat(at: int, ok: bool)

  /** The lease calls of request p on source f once event e has happened as well: securing the
      lease opens the list, each turn of the renewer extends it. */
  function Noted(v: World, e: Event, f: FileSource, p: nat, beats: seq<Beat>): seq<Beat> {
    if e.Tick? || e.source != f || p !in SlotOf(v, f).procs then beats
    else
      var s := SlotOf(v, f);
      var x := s.procs[p];
      if e.act.Run? && e.act.p == p && (x.pc.Renew? || x.pc.Acquire?) && Hear(v.now, s, p, x, e.act.r).Fine?
      then [Beat(v.now, true)]
      else if e.act.RunRenewer? && e.act.p == p then beats + [Beat(v.now, e.act.r == Answer && Holds(s, x))]
      else beats
  }

  /** The lease calls of request p on source f along a run that comes after `beats`. */
  ghost function BeatsOf(c: Config, v: World, run: seq<Event>, f: FileSource, p: nat, beats: seq<Beat>): seq<Beat>
    decreases run
  {
    if run == [] || !Possible(c, v, run[0]) then beats
    else BeatsOf(c, Advance(c, v, run[0]), run[1..], f, p, Noted(v, run[0], f, p, beats))
  }

  /** When the latest successful call took effect. */
  function LatestOk(beats: seq<Beat>): int
    requires beats != []
  {
    var n := |beats| - 1;
    if n == 0 || beats[n].ok then beats[n].at else LatestOk(beats[..n])
  }

  /** The request's own note of its latest renewal is no older than the latest success. */
  predicate Tracked(now: int, s: Slot, p: nat, beats: seq<Beat>) {
    p in s.procs && s.procs[p].guarded ==>
      beats != [] && beats[0].ok && LatestOk(beats) <= s.procs[p].beat <= now
  }

  lemma LatestGrows(beats: seq<Beat>, b: Beat)
    requires beats != []
    ensures LatestOk(beats + [b]) == if b.ok then b.at else LatestOk(beats)
  {
    assert (beats + [b])[..|beats|] == beats;
  }

  /** The request's own call. */
  lemma CallTracked(c: Config, v: World, f: FileSource, p: nat, r: Reply, beats: seq<Beat>)
    requires p in SlotOf(v, f).procs && Tracked(v.now, SlotOf(v, f), p, beats)
    ensures Tracked(v.now, Step(c, v.now, SlotOf(v, f), p, r), p, Noted(v, On(f, Run(p, r)), f, p, beats))
  {
    var s := SlotOf(v, f);
    var x := s.procs[p];
    var h := Hear(v.now, s, p, x, r);
    assert Step(c, v.now, s, p, r).procs[p] == After(v.now, s, p, x, r);
    if (x.pc.Renew? || x.pc.Acquire?) && h.Fine? { assert Beats(v.now, s, x, r); }
  }

  lemma TurnDoes(c: Config, now: int, s: Slot, p: nat, r: Reply)
    requires p in s.procs
    ensures var x, t := s.procs[p], RenewerTurn(c, now, s, p, r);
      && p in t.procs && t.procs[p].guarded == x.guarded
      && t.procs[p].beat == if Effective(r) && Holds(s, x) then now else x.beat
  {}

  /** A turn of its renewer. */
  lemma {:induction false} TurnTracked(now: int, s: Slot, t: Slot, p: nat, r: Reply, beats: seq<Beat>)
    requires p in s.procs && p in t.procs && Tracked(now, s, p, beats)
    requires t.procs[p].guarded == s.procs[p].guarded
    requires t.procs[p].beat == if Effective(r) && Holds(s, s.procs[p]) then now else s.procs[p].beat
    ensures Tracked(now, t, p, beats + [Beat(now, r == Answer && Holds(s, s.procs[p]))])
  {
    if s.procs[p].guarded { LatestGrows(beats, Beat(now, r == Answer && Holds(s, s.procs[p]))); }
  }

  /** Anything else. */
  lemma OthersTracked(c: Config, now: int, s: Slot, a: Action, p: nat, beats: seq<Beat>)
    requires Enabled(c, now, s, a) && Tracked(now, s, p, beats) && !((a.Run? || a.RunRenewer?) && a.p == p)
    ensures Tracked(now, Apply(c, now, s, a), p, beats)
  {
    var t := Apply(c, now, s, a);
    if a.Run? {
      RunLogs.StepElsewhere(c, now, s, a.p, a.r, p);
    } else if a.RunRenewer? || a.Crash? || a.Start? {
      assert p in t.procs && t.procs[p].guarded ==> p in s.procs && t.procs[p].beat == s.procs[p].beat;
    } else {
      RegistrationTheorems.OthersQuiet(c, now, s, a);
    }
  }

  lemma EventTracked(c: Config, v: World, e: Event, f: FileSource, p: nat, beats: seq<Beat>)
    requires Possible(c, v, e) && Tracked(v.now, SlotOf(v, f), p, beats)
    ensures Tracked(Advance(c, v, e).now, SlotOf(Advance(c, v, e), f), p, Noted(v, e, f, p, beats))
  {
    if e.On? && e.source == f {
      if e.act.Run? && e.act.p == p { CallTracked(c, v, f, p, e.act.r, beats); }
      else if e.act.RunRenewer? && e.act.p == p {
        TurnDoes(c, v.now, SlotOf(v, f), p, e.act.r);
        TurnTracked(v.now, SlotOf(v, f), RenewerTurn(c, v.now, SlotOf(v, f), p, e.act.r), p, e.act.r, beats);
      }
      else { OthersTracked(c, v.now, SlotOf(v, f), e.act, p, beats); }
    }
  }

  lemma {:induction false} RunTracked(c: Config, v: World, run: seq<Event>, w: World, f: FileSource, p: nat, beats: seq<Beat>)
    requires Leads(c, v, run, w) && Tracked(v.now, SlotOf(v, f), p, beats)
    ensures Tracked(w.now, SlotOf(w, f), p, BeatsOf(c, v, run, f, p, beats))
    decreases run
  {
    if run != [] {
      EventTracked(c, v, run[0], f, p, beats);
      RunTracked(c, Advance(c, v, run[0]), run[1..], w, f, p, Noted(v, run[0], f, p, beats));
    }
  }

  // ---------------------------------------------------------------------------
  //  The renewer's log
  // ---------------------------------------------------------------------------

  /** The lease calls so far are the first ones of the log; the others take effect after t. */
  predicate Realises(beats: seq<Beat>, log: seq<LeaseRenewer.Call>, t: int) {
    && |beats| < |log|
    && (forall i | 0 <= i < |beats| :: beats[i] == Beat(log[i].effect, log[i].ok))
    && (forall i | |beats| <= i < |log| - 1 :: t < log[i].effect)
  }

  lemma {:induction false} EffectsRise(log: seq<LeaseRenewer.Call>, pause: int, latency: int, i: nat, j: nat)
    requires LeaseRenewer.Steady(log, pause, latency) && i <= j < |log|
    ensures log[i].effect <= log[j].effect
    decreases j
  {
    if i < j {
      EffectsRise(log, pause, latency, i, j - 1);
      assert LeaseRenewer.Timely(log[j - 1], latency) && LeaseRenewer.Timely(log[j], latency);
    }
  }

  lemma {:induction false} LatestAbove(beats: seq<Beat>, log: seq<LeaseRenewer.Call>, pause: int, latency: int, i: nat)
    requires LeaseRenewer.Steady(log, pause, latency) && i < |beats| <= |log| && beats[i].ok
    requires forall k | 0 <= k < |beats| :: beats[k] == Beat(log[k].effect, log[k].ok)
    ensures log[i].effect <= LatestOk(beats)
    decreases |beats|
  {
    var n := |beats| - 1;
    if n == 0 || beats[n].ok {
      EffectsRise(log, pause, latency, i, n);
    } else {
      LatestAbove(beats[..n], log, pause, latency, i);
    }
  }

  /** The log's latest success by time t is not younger than the run's. */
  lemma BeatsAgree(beats: seq<Beat>, log: seq<LeaseRenewer.Call>, pause: int, latency: int, t: int)
    requires LeaseRenewer.Schedule(log, pause, latency) && Realises(beats, log, t) && beats != []
    ensures LeaseRenewer.BeatAt(log, t) <= LatestOk(beats) && log[0].effect <= LatestOk(beats)
  {
    var i := LeaseRenewer.LastBeat(log, |log| - 1, t);
    LatestAbove(beats, log, pause, latency, i);
    LatestAbove(beats, log, pause, latency, 0);
  }

  /** In every sound run: if the lease calls of a request that holds claim and lease guard are
      those of a schedule that never lapses, then at every instant up to the effect of its Release
      it meets what the protocol asks of a holder, and the collector cannot claim its source. */
  lemma RunHoldsLease(c: Config, run: seq<Event>, w: World, f: FileSource, p: nat,
                      log: seq<LeaseRenewer.Call>, pause: int, latency: int, t: int)
    requires WellFormed(c) && Sound(c) && Leads(c, GENESIS, run, w)
    requires p in SlotOf(w, f).procs && Critical(SlotOf(w, f).procs[p])
    requires LeaseRenewer.Schedule(log, pause, latency) && LeaseRenewer.NeverLapses(log, c.ttl)
    requires Realises(BeatsOf(c, GENESIS, run, f, p, []), log, t) && w.now <= t <= log[|log| - 1].effect
    ensures t < SlotOf(w, f).procs[p].beat + c.ttl
    ensures forall start :: !Enabled(c, t, SlotOf(w, f), GcClaim(start))
  {
    var s, beats := SlotOf(w, f), BeatsOf(c, GENESIS, run, f, p, []);
    RunTracked(c, GENESIS, run, w, f, p, []);
    BeatsAgree(beats, log, pause, latency, t);
    RunsKeep(c, GENESIS, run, w);
    assert Inv(c, w.now, s);
    LeaseRenewer.HolderKeepsLease(c, log, w.now, s, p, t);
  }
}
