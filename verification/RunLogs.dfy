/**
  From runs of the whole system to the calls of one request: whatever creators, collector,
  crashes and clock do in between, the calls a request makes in a run form a chain, so that the
  order of calls and the exit discipline hold in every run.
*/
module RunLogs {
  import opened Base
  import opened Registration
  import opened CreateMetadata
  import RegistrationTheorems

  /** Event e is a call of request p on source f. */
  predicate Calls(v: World, e: Event, f: FileSource, p: nat) {
    && e.On? && e.source == f && e.act.Run? && e.act.p == p
    && p in SlotOf(v, f).procs && !Ended(SlotOf(v, f).procs[p])
  }

  /** That call. */
  function CallOf(v: World, e: Event, f: FileSource, p: nat): Turn
    requires Calls(v, e, f, p)
  {
    var s := SlotOf(v, f);
    Turn(v.now, s, e.act.r, After(v.now, s, p, s.procs[p], e.act.r))
  }

  /** The calls of request p on source f along a run. */
  ghost function TurnsOf(c: Config, v: World, run: seq<Event>, f: FileSource, p: nat): seq<Turn>
    decreases run
  {
    if run == [] || !Possible(c, v, run[0]) then []
    else
      var rest := TurnsOf(c, Advance(c, v, run[0]), run[1..], f, p);
      if Calls(v, run[0], f, p)
      then [CallOf(v, run[0], f, p)] + rest
      else rest
  }

  /** What an action that is no call of p does to p's own state. */
  predicate Aside(x: Proc, y: Proc) {
    || y == x
    || (Renewing(x) && Tended(x, y))
    || y == x.(pc := Dead)
  }

  lemma ChainCons(p: nat, t: Turn, log: seq<Turn>)
    requires Genuine(p, t) && Chain(p, log) && (log != [] ==> Present(p, log[0]) && Resumes(p, t, log[0]))
    ensures Chain(p, [t] + log)
  {
    var all := [t] + log;
    forall k | 0 <= k < |all| ensures Present(p, all[k]) {
      if k > 0 { assert Present(p, log[k - 1]); }
    }
    forall i, j | 0 <= i && j == i + 1 < |all| ensures Resumes(p, all[i], all[j]) {
      if i > 0 { assert Resumes(p, log[i - 1], log[j - 1]); }
    }
    forall k | 0 <= k < |all| ensures Genuine(p, all[k]) {
      if k > 0 { assert Genuine(p, log[k - 1]); }
    }
  }

  /** Steps of other requests. */
  lemma StepElsewhere(c: Config, now: int, s: Slot, q: nat, r: Reply, p: nat)
    requires q in s.procs && q != p
    ensures var t := Step(c, now, s, q, r);
      (p in t.procs <==> p in s.procs) && (p in s.procs ==> t.procs[p] == s.procs[p])
  {
    RegistrationTheorems.StepMoves(c, now, s, q, r);
    var t := Step(c, now, s, q, r);
    assert t.procs == s.procs[q := t.procs[q]];
  }

  lemma RenewerTends(c: Config, now: int, s: Slot, p: nat, r: Reply)
    requires p in s.procs
    ensures var t := RenewerTurn(c, now, s, p, r); p in t.procs && Tended(s.procs[p], t.procs[p])
  {}

  /** Actions that are neither calls nor arrivals touch the request only by its renewer's flag or
      a crash. */
  lemma OthersAside(c: Config, now: int, s: Slot, a: Action, p: nat)
    requires Enabled(c, now, s, a) && p in s.procs && !a.Run?
    ensures p in Apply(c, now, s, a).procs && Aside(s.procs[p], Apply(c, now, s, a).procs[p])
    ensures s.procs[p].pc.Done? ==> Apply(c, now, s, a).procs[p].pc.Done?
  {
    var t := Apply(c, now, s, a);
    if a.RunRenewer? && a.p == p {
      RenewerTends(c, now, s, p, a.r);
    } else if a.Crash? && a.p == p {
      assert t.procs[p] == s.procs[p].(pc := Dead);
    } else if a.RunRenewer? || a.Crash? || a.Start? {
      assert t.procs[p] == s.procs[p];
    } else {
      RegistrationTheorems.OthersQuiet(c, now, s, a);
    }
  }

  lemma ActionAside(c: Config, now: int, s: Slot, a: Action, p: nat)
    requires Enabled(c, now, s, a) && p in s.procs
    requires a.Run? && a.p == p ==> Ended(s.procs[p])
    ensures p in Apply(c, now, s, a).procs && Aside(s.procs[p], Apply(c, now, s, a).procs[p])
    ensures s.procs[p].pc.Done? ==> Apply(c, now, s, a).procs[p].pc.Done?
  {
    if a.Run? && a.p != p {
      StepElsewhere(c, now, s, a.p, a.r, p);
    } else if !a.Run? {
      OthersAside(c, now, s, a, p);
    }
  }

  /** A request appears only by arriving. */
  lemma ActionArrives(c: Config, now: int, s: Slot, a: Action, p: nat)
    requires Enabled(c, now, s, a) && p !in s.procs && p in Apply(c, now, s, a).procs
    ensures a.Start? && Apply(c, now, s, a).procs[p] == Newcomer(a.inst)
  {
    if a.Run? { StepElsewhere(c, now, s, a.p, a.r, p); }
  }

  /** How the first call of a log fits a state x of the request. */
  predicate Continues(x: Proc, p: nat, log: seq<Turn>) {
    log != [] ==>
      && p in log[0].before.procs && !Ended(x)
      && Tended(x, log[0].before.procs[p])
      && (!Renewing(x) ==> log[0].before.procs[p] == x)
  }

  lemma AsideContinues(x: Proc, y: Proc, p: nat, log: seq<Turn>)
    requires Aside(x, y) && Continues(y, p, log)
    ensures Continues(x, p, log)
  {}

  /** One event of the whole system, as the request on source f sees it. */
  lemma EventAside(c: Config, v: World, e: Event, f: FileSource, p: nat)
    requires Possible(c, v, e) && p in SlotOf(v, f).procs && !Calls(v, e, f, p)
    ensures var s, t := SlotOf(v, f), SlotOf(Advance(c, v, e), f);
      p in t.procs && Aside(s.procs[p], t.procs[p]) && (s.procs[p].pc.Done? ==> t.procs[p].pc.Done?)
  {
    if e.On? && e.source == f { ActionAside(c, v.now, SlotOf(v, f), e.act, p); }
  }

  lemma EventArrives(c: Config, v: World, e: Event, f: FileSource, p: nat)
    requires Possible(c, v, e) && p !in SlotOf(v, f).procs && p in SlotOf(Advance(c, v, e), f).procs
    ensures exists i: nat :: SlotOf(Advance(c, v, e), f).procs[p] == Newcomer(i)
  {
    ActionArrives(c, v.now, SlotOf(v, f), e.act, p);
  }

  lemma EventCalls(c: Config, v: World, e: Event, f: FileSource, p: nat)
    requires Possible(c, v, e) && Calls(v, e, f, p)
    ensures Genuine(p, CallOf(v, e, f, p))
    ensures p in SlotOf(Advance(c, v, e), f).procs && SlotOf(Advance(c, v, e), f).procs[p] == CallOf(v, e, f, p).after
  {}

  /** In every run of the whole system the calls of a request form a chain that starts where the
      request is (or with a new request, if it is not there yet). */
  lemma {:induction false} RunChains(c: Config, v: World, run: seq<Event>, w: World, f: FileSource, p: nat)
    requires Leads(c, v, run, w)
    ensures var log := TurnsOf(c, v, run, f, p);
      && Chain(p, log)
      && (p in SlotOf(v, f).procs ==> Continues(SlotOf(v, f).procs[p], p, log))
      && (p !in SlotOf(v, f).procs && log != [] ==>
            p in log[0].before.procs && exists i: nat :: log[0].before.procs[p] == Newcomer(i))
    decreases run
  {
    if run != [] {
      var e, u := run[0], Advance(c, v, run[0]);
      RunChains(c, u, run[1..], w, f, p);
      var rest := TurnsOf(c, u, run[1..], f, p);
      if Calls(v, e, f, p) {
        EventCalls(c, v, e, f, p);
        ChainCons(p, CallOf(v, e, f, p), rest);
      } else if p in SlotOf(v, f).procs {
        EventAside(c, v, e, f, p);
        AsideContinues(SlotOf(v, f).procs[p], SlotOf(u, f).procs[p], p, rest);
      } else if p in SlotOf(u, f).procs {
        EventArrives(c, v, e, f, p);
      }
    }
  }

  /** The state a log leaves behind, starting from x. */
  function LastState(x: Proc, log: seq<Turn>): Proc { if log != [] then log[|log| - 1].after else x }

  lemma LastCons(x: Proc, t: Turn, rest: seq<Turn>)
    ensures LastState(x, [t] + rest) == LastState(t.after, rest)
  {}

  lemma EventKeepsProc(c: Config, v: World, e: Event, f: FileSource, p: nat)
    requires Possible(c, v, e) && p in SlotOf(v, f).procs
    ensures p in SlotOf(Advance(c, v, e), f).procs
  {
    if !Calls(v, e, f, p) { EventAside(c, v, e, f, p); }
  }

  /** If the request has returned at the end of a run, its last call was the one that returned. */
  lemma {:induction false} RunReturns(c: Config, v: World, run: seq<Event>, w: World, f: FileSource, p: nat)
    requires Leads(c, v, run, w) && p in SlotOf(v, f).procs
    requires p in SlotOf(w, f).procs && SlotOf(w, f).procs[p].pc.Done?
    ensures LastState(SlotOf(v, f).procs[p], TurnsOf(c, v, run, f, p)).pc.Done?
    decreases run
  {
    if run != [] {
      var e, u := run[0], Advance(c, v, run[0]);
      var rest := TurnsOf(c, u, run[1..], f, p);
      EventKeepsProc(c, v, e, f, p);
      RunReturns(c, u, run[1..], w, f, p);
      if Calls(v, e, f, p) {
        EventCalls(c, v, e, f, p);
        LastCons(SlotOf(v, f).procs[p], CallOf(v, e, f, p), rest);
      } else {
        EventAside(c, v, e, f, p);
      }
    }
  }

  lemma {:induction false} NotYetCalled(c: Config, v: World, run: seq<Event>, w: World, f: FileSource, p: nat)
    requires Leads(c, v, run, w) && p !in SlotOf(v, f).procs && p in SlotOf(w, f).procs
    ensures run != [] && Possible(c, v, run[0])
    ensures TurnsOf(c, v, run, f, p) == TurnsOf(c, Advance(c, v, run[0]), run[1..], f, p)
  {}

  lemma {:induction false} NewcomerReturns(c: Config, v: World, run: seq<Event>, w: World, f: FileSource, p: nat)
    requires Leads(c, v, run, w) && p !in SlotOf(v, f).procs
    requires p in SlotOf(w, f).procs && SlotOf(w, f).procs[p].pc.Done?
    ensures var log := TurnsOf(c, v, run, f, p);
      log != [] && log[|log| - 1].after.pc.Done?
    decreases run
  {
    var e, u := run[0], Advance(c, v, run[0]);
    NotYetCalled(c, v, run, w, f, p);
    if p in SlotOf(u, f).procs {
      EventArrives(c, v, e, f, p);
      RunReturns(c, u, run[1..], w, f, p);
    } else {
      NewcomerReturns(c, u, run[1..], w, f, p);
    }
  }

  /** In every run of the whole system, the calls of a request that has returned are a complete
      execution, so that the exit discipline holds for it. */
  lemma ReturnedExecutions(c: Config, run: seq<Event>, w: World, f: FileSource, p: nat)
    requires Leads(c, GENESIS, run, w)
    requires p in SlotOf(w, f).procs && SlotOf(w, f).procs[p].pc.Done?
    ensures Execution(p, TurnsOf(c, GENESIS, run, f, p))
  {
    RunChains(c, GENESIS, run, w, f, p);
    NewcomerReturns(c, GENESIS, run, w, f, p);
  }
}
