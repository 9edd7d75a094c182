/**
  The accept thread, the worker threads and Stop of the large-file plane as a step system.  Each
  step is one access to shared state (atomic counter, mutex section, flag) or one system call;
  threads interleave arbitrarily.  Accepted connections are numbered, so that a reused
  descriptor number is a new connection.
*/
module Admission {

  datatype Acceptor =
    | Head                     // about to test stop_requested
    | Accepting                // in accept(2)
    | Counting(conn: nat)      // about to raise in_flight
    | Refusing(conn: nat)      // over the limit: about to send 503 and close
    | Lowering                 // about to lower in_flight again
    | Pushing(conn: nat)       // about to queue
    | Left                     // the thread has ended

  datatype Worker =
    | Waiting
    | Holding(conn: nat)       // popped; serving or about to close
    | Settling                 // closed; about to lower in_flight
    | Gone

  datatype Stopper = NotCalled | Requested | Flagged | AcceptJoined | WorkersJoined | Draining(rest: seq<nat>) | Stopped

  datatype State = State(
    limit: nat,
    stopRequested: bool, stopping: bool,
    inFlight: int,
    queue: seq<nat>,
    acceptor: Acceptor, workers: seq<Worker>, stopper: Stopper,
    next: nat,                 // number of connections accepted so far
    drained: nat,              // connections that Stop took out of the queue
    closed: seq<nat>)          // close(2) calls so far

  function Initial(limit: nat, workers: nat): State {
    State(limit, false, false, 0, [], Head, seq(workers, _ => Waiting), NotCalled, 0, 0, [])
  }

  datatype Move =
    | Test | AcceptOk | AcceptFails | Count | Refuse | Lower | Push
    | Pop(w: nat) | Finish(w: nat) | Settle(w: nat) | Quit(w: nat)
    | Request | Flag | JoinAcceptor | JoinWorkers | Take | CloseOne

  predicate Enabled(s: State, m: Move) {
    match m
    case Test => s.acceptor.Head?
    case AcceptOk => s.acceptor.Accepting?
    case AcceptFails => s.acceptor.Accepting?
    case Count => s.acceptor.Counting?
    case Refuse => s.acceptor.Refusing?
    case Lower => s.acceptor.Lowering?
    case Push => s.acceptor.Pushing?
    case Pop(w) => w < |s.workers| && s.workers[w].Waiting? && s.queue != []
    case Finish(w) => w < |s.workers| && s.workers[w].Holding?
    case Settle(w) => w < |s.workers| && s.workers[w].Settling?
    case Quit(w) => w < |s.workers| && s.workers[w].Waiting? && s.queue == [] && s.stopping
    case Request => s.stopper.NotCalled?
    case Flag => s.stopper.Requested?
    case JoinAcceptor => s.stopper.Flagged? && s.acceptor.Left?
    case JoinWorkers => s.stopper.AcceptJoined? && forall w | 0 <= w < |s.workers| :: s.workers[w].Gone?
    case Take => s.stopper.WorkersJoined?
    case CloseOne => s.stopper.Draining?
  }

  function Next(s: State, m: Move): State
    requires Enabled(s, m)
  {
    match m
    case Test => s.(acceptor := if s.stopRequested then Left else Accepting)
    case AcceptOk => s.(acceptor := Counting(s.next), next := s.next + 1)
    case AcceptFails => s.(acceptor := Head)
    case Count =>
      var now := s.inFlight + 1;
      var c := s.acceptor.conn;
      s.(inFlight := now, acceptor := if now > s.limit then Refusing(c) else Pushing(c))
    case Refuse => s.(closed := s.closed + [s.acceptor.conn], acceptor := Lowering)
    case Lower => s.(inFlight := s.inFlight - 1, acceptor := Head)
    case Push => s.(queue := s.queue + [s.acceptor.conn], acceptor := Head)
    case Pop(w) => s.(queue := s.queue[1..], workers := s.workers[w := Holding(s.queue[0])])
    case Finish(w) =>
      s.(closed := s.closed + [s.workers[w].conn], workers := s.workers[w := Settling])
    case Settle(w) => s.(inFlight := s.inFlight - 1, workers := s.workers[w := Waiting])
    case Quit(w) => s.(workers := s.workers[w := Gone])
    case Request => s.(stopRequested := true, stopper := Requested)
    case Flag => s.(stopping := true, stopper := Flagged)
    case JoinAcceptor => s.(stopper := AcceptJoined)
    case JoinWorkers => s.(stopper := WorkersJoined)
    case Take => s.(stopper := Draining(s.queue), queue := [], drained := |s.queue|)
    case CloseOne =>
      if s.stopper.rest == [] then s.(stopper := Stopped)
      else s.(closed := s.closed + [s.stopper.rest[0]], stopper := Draining(s.stopper.rest[1..]))
  }

  ghost predicate Leads(s: State, run: seq<Move>, t: State)
    decreases run
  {
    if run == [] then s == t
    else Enabled(s, run[0]) && Leads(Next(s, run[0]), run[1..], t)
  }

  ghost predicate Reachable(limit: nat, workers: nat, t: State) {
    exists run :: Leads(Initial(limit, workers), run, t)
  }

  // ---------------------------------------------------------------------------
  //  Accounting
  // ---------------------------------------------------------------------------

  function Bit(b: bool): nat { if b then 1 else 0 }

  function Busy(w: Worker): nat { Bit(w.Holding? || w.Settling?) }

  function InHand(w: Worker, c: nat): nat { Bit(w == Holding(c)) }

  function Count(q: seq<nat>, c: nat): nat {
    if q == [] then 0 else Count(q[..|q| - 1], c) + Bit(q[|q| - 1] == c)
  }

  lemma CountPush(q: seq<nat>, x: nat, c: nat)
    ensures Count(q + [x], c) == Count(q, c) + Bit(x == c)
  {
    assert (q + [x])[..|q|] == q;
  }

  lemma {:induction false} CountPop(q: seq<nat>, c: nat)
    requires q != []
    ensures Count(q, c) == Bit(q[0] == c) + Count(q[1..], c)
    decreases |q|
  {
    var n := |q| - 1;
    if n > 0 {
      CountPop(q[..n], c);
      assert q[..n][1..] == q[1..][..n - 1];
    }
  }

  /** How many workers have connection c in hand. */
  function Held(ws: seq<Worker>, c: nat): nat {
    if ws == [] then 0 else Held(ws[..|ws| - 1], c) + InHand(ws[|ws| - 1], c)
  }

  /** Connections being served (until in_flight is lowered). */
  function Serving(ws: seq<Worker>): nat {
    if ws == [] then 0 else Serving(ws[..|ws| - 1]) + Busy(ws[|ws| - 1])
  }

  function AtAcceptor(a: Acceptor, c: nat): nat {
    Bit(a == Counting(c) || a == Refusing(c) || a == Pushing(c))
  }

  /** What the acceptor has added to in_flight. */
  function Added(a: Acceptor): nat { Bit(a.Refusing? || a.Lowering? || a.Pushing?) }

  function AtStopper(p: Stopper, c: nat): nat {
    if p.Draining? then Count(p.rest, c) else 0
  }

  /** How many threads or queues have connection c, not closed yet. */
  function Live(s: State, c: nat): nat {
    AtAcceptor(s.acceptor, c) + Count(s.queue, c) + Held(s.workers, c) + AtStopper(s.stopper, c)
  }

  predicate Accounted(s: State, c: nat) { Live(s, c) + Count(s.closed, c) == Bit(c < s.next) }

  /** in_flight counts exactly the admitted connections (and a refused one in transit). */
  predicate Tallied(s: State) {
    s.inFlight == Added(s.acceptor) + |s.queue| + Serving(s.workers) + s.drained
  }

  predicate Admitted(s: State) {
    |s.queue| + Serving(s.workers) + s.drained + Bit(s.acceptor.Pushing?) <= s.limit
  }

  /** The order of the stop sequence. */
  predicate Phased(s: State) {
    && (s.stopping ==> s.stopRequested)
    && (s.stopRequested <==> !s.stopper.NotCalled?)
    && (s.stopper.NotCalled? || s.stopper.Requested? ==> !s.stopping)
    && (s.stopper.AcceptJoined? || Joined(s.stopper) ==> s.acceptor.Left?)
    && (Joined(s.stopper) ==> forall w | 0 <= w < |s.workers| :: s.workers[w].Gone?)
    && (!(s.stopper.Draining? || s.stopper.Stopped?) ==> s.drained == 0)
    && (s.stopper.Draining? || s.stopper.Stopped? ==> s.queue == [])
    && ((exists w :: 0 <= w < |s.workers| && s.workers[w].Gone?) ==> s.stopping)
  }

  predicate Joined(p: Stopper) { p.WorkersJoined? || p.Draining? || p.Stopped? }

  /** Pushes the acceptor may still make once stop was requested. */
  function Budget(a: Acceptor): nat { Bit(!a.Head? && !a.Left? && !a.Lowering?) }

  /** Once a worker has quit, at most one connection can still reach the queue. */
  predicate Residue(s: State) {
    (exists w :: 0 <= w < |s.workers| && s.workers[w].Gone?) ==>
      |s.queue| + s.drained + Budget(s.acceptor) <= 1
  }

  predicate Inv(s: State, c: nat) {
    Accounted(s, c) && Tallied(s) && Admitted(s) && Phased(s) && Residue(s)
  }

  lemma {:induction false} HeldUpdate(ws: seq<Worker>, w: nat, x: Worker, c: nat)
    requires w < |ws|
    ensures Held(ws[w := x], c) + InHand(ws[w], c) == Held(ws, c) + InHand(x, c)
    ensures Serving(ws[w := x]) + Busy(ws[w]) == Serving(ws) + Busy(x)
    decreases |ws|
  {
    var n := |ws| - 1;
    if w == n {
      assert ws[w := x][..n] == ws[..n];
    } else {
      HeldUpdate(ws[..n], w, x, c);
      assert ws[w := x][..n] == ws[..n][w := x];
    }
  }

  lemma {:induction false} AllGone(ws: seq<Worker>, c: nat)
    requires forall w | 0 <= w < |ws| :: ws[w].Gone?
    ensures Held(ws, c) == 0 && Serving(ws) == 0
    decreases |ws|
  {
    if ws != [] { AllGone(ws[..|ws| - 1], c); }
  }

  lemma {:induction false} NobodyBusy(workers: nat, c: nat)
    ensures Held(seq(workers, _ => Waiting), c) == 0 && Serving(seq(workers, _ => Waiting)) == 0
  {
    if workers > 0 {
      NobodyBusy(workers - 1, c);
      assert seq(workers, _ => Waiting)[..workers - 1] == seq(workers - 1, _ => Waiting);
    }
  }

  // Each part of the invariant is kept by every move.

  lemma WorkerMoves(s: State, m: Move, c: nat)
    requires Enabled(s, m) && OfWorker(m)
    ensures var t := Next(s, m);
      && Held(t.workers, c) + InHand(s.workers[m.w], c) == Held(s.workers, c) + InHand(t.workers[m.w], c)
      && Serving(t.workers) + Busy(s.workers[m.w]) == Serving(s.workers) + Busy(t.workers[m.w])
  {
    HeldUpdate(s.workers, m.w, Next(s, m).workers[m.w], c);
  }

  predicate OfWorker(m: Move) { m.Pop? || m.Finish? || m.Settle? || m.Quit? }

  predicate OfStopper(m: Move) {
    m.Request? || m.Flag? || m.JoinAcceptor? || m.JoinWorkers? || m.Take? || m.CloseOne?
  }

  lemma WorkerAccounted(s: State, m: Move, c: nat)
    requires Accounted(s, c) && Enabled(s, m) && OfWorker(m)
    ensures Accounted(Next(s, m), c)
  {
    WorkerMoves(s, m, c);
    if m.Pop? { CountPop(s.queue, c); }
    if m.Finish? { CountPush(s.closed, s.workers[m.w].conn, c); }
  }

  lemma StopperAccounted(s: State, m: Move, c: nat)
    requires Accounted(s, c) && Enabled(s, m) && OfStopper(m)
    ensures Accounted(Next(s, m), c)
  {
    if m.CloseOne? && s.stopper.rest != [] {
      CountPop(s.stopper.rest, c);
      CountPush(s.closed, s.stopper.rest[0], c);
    }
  }

  /** What the acceptor hands on, and that it touches nothing else. */
  lemma AcceptorMoves(s: State, m: Move, c: nat)
    requires Enabled(s, m) && !OfWorker(m) && !OfStopper(m)
    ensures var t := Next(s, m);
      && t.workers == s.workers && t.stopper == s.stopper
      && AtAcceptor(t.acceptor, c) + Count(t.queue, c) + Count(t.closed, c) + Bit(c < s.next) ==
           AtAcceptor(s.acceptor, c) + Count(s.queue, c) + Count(s.closed, c) + Bit(c < t.next)
  {
    if m.Refuse? { CountPush(s.closed, s.acceptor.conn, c); }
    if m.Push? { CountPush(s.queue, s.acceptor.conn, c); }
  }

  lemma AcceptorAccounted(s: State, m: Move, c: nat)
    requires Accounted(s, c) && Enabled(s, m) && !OfWorker(m) && !OfStopper(m)
    ensures Accounted(Next(s, m), c)
  {
    AcceptorMoves(s, m, c);
  }

  lemma AccountedKeeps(s: State, m: Move, c: nat)
    requires Accounted(s, c) && Enabled(s, m)
    ensures Accounted(Next(s, m), c)
  {
    if OfWorker(m) { WorkerAccounted(s, m, c); }
    else if OfStopper(m) { StopperAccounted(s, m, c); }
    else { AcceptorAccounted(s, m, c); }
  }

  lemma WorkerCounts(s: State, m: Move)
    requires Tallied(s) && Admitted(s) && Enabled(s, m) && OfWorker(m)
    ensures Tallied(Next(s, m)) && Admitted(Next(s, m))
  {
    WorkerMoves(s, m, 0);
  }

  lemma StopperCounts(s: State, m: Move)
    requires Tallied(s) && Admitted(s) && Phased(s) && Enabled(s, m) && OfStopper(m)
    ensures Tallied(Next(s, m)) && Admitted(Next(s, m))
  {
    assert Next(s, m).workers == s.workers && Next(s, m).acceptor == s.acceptor;
  }

  lemma AcceptorCounts(s: State, m: Move)
    requires Tallied(s) && Admitted(s) && Enabled(s, m) && !OfWorker(m) && !OfStopper(m)
    ensures Tallied(Next(s, m)) && Admitted(Next(s, m))
  {
    assert Next(s, m).workers == s.workers && Next(s, m).drained == s.drained;
  }

  lemma CountsKeep(s: State, m: Move)
    requires Tallied(s) && Admitted(s) && Phased(s) && Enabled(s, m)
    ensures Tallied(Next(s, m)) && Admitted(Next(s, m))
  {
    if OfWorker(m) { WorkerCounts(s, m); }
    else if OfStopper(m) { StopperCounts(s, m); }
    else { AcceptorCounts(s, m); }
  }

  lemma PhasedKeeps(s: State, m: Move)
    requires Phased(s) && Enabled(s, m)
    ensures Phased(Next(s, m))
  {}

  lemma ResidueKeeps(s: State, m: Move)
    requires Phased(s) && Residue(s) && Enabled(s, m)
    ensures Residue(Next(s, m))
  {
    var t := Next(s, m);
    if w :| 0 <= w < |t.workers| && t.workers[w].Gone? {
      if m.Quit? {
        assert |t.queue| == 0;
      } else {
        assert s.workers[w].Gone?;
      }
    }
  }

  lemma SizesKeep(s: State, m: Move)
    requires Enabled(s, m)
    ensures Next(s, m).limit == s.limit && |Next(s, m).workers| == |s.workers|
  {}

  lemma InvKeeps(s: State, m: Move, c: nat)
    requires Inv(s, c) && Enabled(s, m)
    ensures Inv(Next(s, m), c)
  {
    AccountedKeeps(s, m, c);
    CountsKeep(s, m);
    PhasedKeeps(s, m);
    ResidueKeeps(s, m);
  }

  lemma {:induction false} RunsKeep(s: State, run: seq<Move>, t: State, c: nat)
    requires Inv(s, c) && Leads(s, run, t)
    ensures Inv(t, c) && t.limit == s.limit && |t.workers| == |s.workers|
    decreases run
  {
    if run != [] {
      InvKeeps(s, run[0], c);
      SizesKeep(s, run[0]);
      RunsKeep(Next(s, run[0]), run[1..], t, c);
    }
  }

  lemma ReachableInv(limit: nat, workers: nat, t: State, c: nat)
    requires Reachable(limit, workers, t)
    ensures Inv(t, c) && t.limit == limit && |t.workers| == workers
  {
    var run :| Leads(Initial(limit, workers), run, t);
    NobodyBusy(workers, c);
    RunsKeep(Initial(limit, workers), run, t, c);
  }

  /** Queued and served connections never exceed the limit. */
  lemma AdmissionBound(limit: nat, workers: nat, t: State)
    requires Reachable(limit, workers, t)
    ensures |t.queue| + Serving(t.workers) <= limit
  {
    ReachableInv(limit, workers, t, 0);
  }

  /** A counted connection is refused exactly if the plane is full. */
  lemma RefusedIffFull(limit: nat, workers: nat, t: State)
    requires Reachable(limit, workers, t) && t.acceptor.Counting?
    ensures var u := Next(t, Move.Count);
      && (u.acceptor == Refusing(t.acceptor.conn) <==> |t.queue| + Serving(t.workers) + t.drained >= limit)
      && (u.acceptor == Pushing(t.acceptor.conn) <==> |t.queue| + Serving(t.workers) + t.drained < limit)
  {
    ReachableInv(limit, workers, t, 0);
  }

  /** At every moment each accepted connection has been closed at most once, and until then it
      is in exactly one place: with one thread, or once in the queue. */
  lemma ClosedOnce(limit: nat, workers: nat, t: State, c: nat)
    requires Reachable(limit, workers, t)
    ensures c < t.next ==> Count(t.closed, c) + Live(t, c) == 1
    ensures c >= t.next ==> Count(t.closed, c) == 0
  {
    ReachableInv(limit, workers, t, c);
  }

  /** When Stop has returned every accepted connection has been closed exactly once; with at
      least one worker it found at most one leftover in the queue, and in_flight remains at the
      number of leftovers. */
  lemma StopClosesAll(limit: nat, workers: nat, t: State)
    requires Reachable(limit, workers, t) && t.stopper.Stopped?
    ensures forall c: nat :: Count(t.closed, c) == Bit(c < t.next)
    ensures workers > 0 ==> t.drained <= 1
    ensures t.inFlight == t.drained
  {
    ReachableInv(limit, workers, t, 0);
    AllGone(t.workers, 0);
    if workers > 0 { assert t.workers[0].Gone?; }
    forall c: nat ensures Count(t.closed, c) == Bit(c < t.next) {
      ReachableInv(limit, workers, t, c);
      AllGone(t.workers, c);
    }
  }

  lemma {:induction false} LeadsOn(s: State, run: seq<Move>, t: State, m: Move)
    requires Leads(s, run, t) && Enabled(t, m)
    ensures Leads(s, run + [m], Next(t, m))
    decreases run
  {
    if run == [] {
      assert ([] + [m])[1..] == [];
    } else {
      LeadsOn(Next(s, run[0]), run[1..], t, m);
      assert (run + [m])[1..] == run[1..] + [m];
    }
  }

  lemma Onward(limit: nat, workers: nat, s: State, m: Move, t: State)
    requires Reachable(limit, workers, s) && Enabled(s, m) && t == Next(s, m)
    ensures Reachable(limit, workers, t)
  {
    var run :| Leads(Initial(limit, workers), run, s);
    LeadsOn(Initial(limit, workers), run, s, m);
  }

  /** Accepted before the stop request; then the only worker quits. */
  const LATE := State(1, true, true, 0, [], Counting(0), [Gone], Flagged, 1, 0, [])

  lemma LateReachable()
    ensures Reachable(1, 1, LATE)
  {
    var a := State(1, false, false, 0, [], Head, [Waiting], NotCalled, 0, 0, []);
    assert a == Initial(1, 1) && Leads(a, [], a);
    var b := a.(acceptor := Accepting);
    Onward(1, 1, a, Test, b);
    var c := b.(acceptor := Counting(0), next := 1);
    Onward(1, 1, b, AcceptOk, c);
    var d := c.(stopRequested := true, stopper := Requested);
    Onward(1, 1, c, Request, d);
    var e := d.(stopping := true, stopper := Flagged);
    Onward(1, 1, d, Flag, e);
    Onward(1, 1, e, Quit(0), LATE);
  }

  /** Queued when nobody is left to serve it. */
  const STRANDED := State(1, true, true, 1, [0], Left, [Gone], Flagged, 1, 0, [])

  lemma StrandedReachable()
    ensures Reachable(1, 1, STRANDED)
  {
    LateReachable();
    var g := LATE.(inFlight := 1, acceptor := Pushing(0));
    Onward(1, 1, LATE, Move.Count, g);
    var h := g.(queue := [0], acceptor := Head);
    Onward(1, 1, g, Push, h);
    Onward(1, 1, h, Test, STRANDED);
  }

  /** A leftover does occur, and in_flight is not lowered for it. */
  lemma LeftoverPossible()
    ensures exists t :: Reachable(1, 1, t) && t.stopper.Stopped? && t.drained == 1 && t.inFlight == 1
  {
    StrandedReachable();
    var j := STRANDED.(stopper := AcceptJoined);
    Onward(1, 1, STRANDED, JoinAcceptor, j);
    var k := j.(stopper := WorkersJoined);
    Onward(1, 1, j, JoinWorkers, k);
    var l := k.(stopper := Draining([0]), queue := [], drained := 1);
    Onward(1, 1, k, Take, l);
    var m := l.(stopper := Draining([]), closed := [0]);
    assert l.stopper.rest[1..] == [] && l.closed + [0] == [0];
    Onward(1, 1, l, CloseOne, m);
    var n := m.(stopper := Stopped);
    Onward(1, 1, m, CloseOne, n);
  }
}
