/**
  The orphan pass over many FileSources.  It reads the locations page by page while the system
  runs on; whether it misses a source follows from what happens to the locations of the others in
  between.  With that, the exact condition under which no ready record ever loses its bytes.
*/
module PagedPass {
  import opened Base
  import opened Registration
  import opened RegistrationInvariant
  import opened RegistrationSafety
  import opened RegistrationTheorems
  import UploadedBytes
  import GcTask
  import GcPaging

  predicate Located(w: World, f: FileSource) { SlotOf(w, f).loc != NoPlace }

  /** What identifies the location of the i-th source; its reference plays no part here. */
  function Tag(i: nat): GcTask.Location { GcTask.Location(i, i, GcTask.Persistent, None) }

  /** The locations of the first n sources of the order, as a page request finds them. */
  function View(w: World, order: seq<FileSource>, n: nat): seq<GcTask.Location>
    requires n <= |order|
  {
    if n == 0 then [] else View(w, order, n - 1) + if Located(w, order[n - 1]) then [Tag(n - 1)] else []
  }

  function ViewOf(w: World, order: seq<FileSource>): seq<GcTask.Location> { View(w, order, |order|) }

  // ---------------------------------------------------------------------------
  //  What happens between two page requests
  // ---------------------------------------------------------------------------

  function Gone(v: World, w: World, order: seq<FileSource>): set<nat> {
    set i | 0 <= i < |order| && Located(v, order[i]) && !Located(w, order[i]) :: i
  }

  function Added(v: World, w: World, order: seq<FileSource>, n: nat): seq<GcTask.Location>
    requires n <= |order|
  {
    if n == 0 then []
    else Added(v, w, order, n - 1) + if !Located(v, order[n - 1]) && Located(w, order[n - 1]) then [Tag(n - 1)] else []
  }

  function ChangeOf(v: World, w: World, order: seq<FileSource>): GcPaging.Change {
    GcPaging.Change(Gone(v, w, order), Added(v, w, order, |order|))
  }

  /** Locations that appear between v and w come after all those that v has. */
  predicate Appends(v: World, w: World, order: seq<FileSource>) {
    forall i, j | 0 <= i < |order| && 0 <= j < |order| && Located(v, order[j]) && !Located(v, order[i]) && Located(w, order[i]) ::
      j < i
  }

  lemma PrunedOne(x: GcTask.Location, gone: set<nat>)
    ensures GcPaging.Pruned([x], gone) == if x.id in gone then [] else [x]
  {
    assert [x][1..] == [];
  }

  lemma {:induction false} NothingAddedYet(v: World, w: World, order: seq<FileSource>, n: nat, j: nat)
    requires n <= j < |order| && Appends(v, w, order) && Located(v, order[j])
    ensures Added(v, w, order, n) == []
    decreases n
  {
    if n > 0 { NothingAddedYet(v, w, order, n - 1, j); }
  }

  lemma Joined(p: seq<GcTask.Location>, a: seq<GcTask.Location>, x: GcTask.Location)
    ensures (p + a) + [x] == p + (a + [x])
    ensures a == [] ==> (p + a) + [x] == (p + [x]) + a
    ensures p + a + [] == p + a && a + [] == a && p + [] == p
  {}

  /** What a source with a location in v adds to both sides. */
  lemma {:induction false} OldSource(v: World, w: World, order: seq<FileSource>, n: nat)
    requires 0 < n <= |order| && Appends(v, w, order) && Located(v, order[n - 1])
    ensures var gone := Gone(v, w, order);
      && Added(v, w, order, n - 1) == [] && Added(v, w, order, n) == []
      && GcPaging.Pruned(View(v, order, n), gone) ==
           GcPaging.Pruned(View(v, order, n - 1), gone) + if Located(w, order[n - 1]) then [Tag(n - 1)] else []
  {
    var gone, before := Gone(v, w, order), View(v, order, n - 1);
    assert n - 1 in gone <==> !Located(w, order[n - 1]);
    GcPaging.PrunedSplits(before, [Tag(n - 1)], gone);
    PrunedOne(Tag(n - 1), gone);
    NothingAddedYet(v, w, order, n - 1, n - 1);
  }

  /** What one without adds. */
  lemma {:induction false} NewSource(v: World, w: World, order: seq<FileSource>, n: nat)
    requires 0 < n <= |order| && !Located(v, order[n - 1])
    ensures View(v, order, n) == View(v, order, n - 1)
    ensures Added(v, w, order, n) == Added(v, w, order, n - 1) + if Located(w, order[n - 1]) then [Tag(n - 1)] else []
  {}

  lemma {:induction false} ViewChangesTo(v: World, w: World, order: seq<FileSource>, n: nat)
    requires n <= |order| && Appends(v, w, order)
    ensures View(w, order, n) == GcPaging.Pruned(View(v, order, n), Gone(v, w, order)) + Added(v, w, order, n)
    decreases n
  {
    if n > 0 {
      ViewChangesTo(v, w, order, n - 1);
      if Located(v, order[n - 1]) { OldSource(v, w, order, n); } else { NewSource(v, w, order, n); }
      Joined(GcPaging.Pruned(View(v, order, n - 1), Gone(v, w, order)), Added(v, w, order, n - 1), Tag(n - 1));
    }
  }

  /** The next view is a change of this one, as the paging theory has it. */
  lemma ViewChanges(v: World, w: World, order: seq<FileSource>)
    requires Appends(v, w, order)
    ensures ViewOf(w, order) == GcPaging.Changed(ViewOf(v, order), ChangeOf(v, w, order))
  {
    ViewChangesTo(v, w, order, |order|);
  }

  // ---------------------------------------------------------------------------
  //  Runs of the system
  // ---------------------------------------------------------------------------

  /** A create that repoints its location after somebody has deleted it. */
  predicate Revives(v: World, e: Event) {
    && e.On? && e.act.Run? && e.act.p in SlotOf(v, e.source).procs
    && SlotOf(v, e.source).procs[e.act.p].pc.Save? && !Located(v, e.source)
  }

  ghost predicate NoneRevived(c: Config, v: World, run: seq<Event>)
    decreases run
  {
    run == [] || (Possible(c, v, run[0]) ==> !Revives(v, run[0]) && NoneRevived(c, Advance(c, v, run[0]), run[1..]))
  }

  lemma LocationAppears(c: Config, now: int, s: Slot, a: Action)
    requires Enabled(c, now, s, a) && s.loc == NoPlace && Apply(c, now, s, a).loc != NoPlace
    ensures a.Issue? || (a.Run? && a.p in s.procs && s.procs[a.p].pc.Save?)
    ensures a.Issue? ==> !s.issued
  {}

  lemma StaysIssued(c: Config, now: int, s: Slot, a: Action)
    requires Enabled(c, now, s, a)
    ensures s.issued ==> Apply(c, now, s, a).issued
  {}

  /** Unless a create revives it, a location appears only with the first upload of its source. */
  lemma {:induction false} RunAppears(c: Config, v: World, run: seq<Event>, w: World, f: FileSource)
    requires Leads(c, v, run, w) && NoneRevived(c, v, run)
    ensures SlotOf(v, f).issued ==> SlotOf(w, f).issued
    ensures !Located(v, f) && Located(w, f) ==> !SlotOf(v, f).issued
    decreases run
  {
    if run != [] {
      var e, u := run[0], Advance(c, v, run[0]);
      RunAppears(c, u, run[1..], w, f);
      if e.On? && e.source == f {
        StaysIssued(c, v.now, SlotOf(v, f), e.act);
        if !Located(v, f) && Located(u, f) { LocationAppears(c, v.now, SlotOf(v, f), e.act); }
      }
    }
  }

  /** Sources that have no upload yet come after those with a location. */
  predicate ByCreation(v: World, order: seq<FileSource>) {
    forall i, j | 0 <= i < |order| && 0 <= j < |order| && Located(v, order[j]) && !SlotOf(v, order[i]).issued :: j < i
  }

  lemma RunAppends(c: Config, v: World, run: seq<Event>, w: World, order: seq<FileSource>)
    requires Leads(c, v, run, w) && NoneRevived(c, v, run) && ByCreation(v, order)
    ensures Appends(v, w, order)
  {
    forall i, j | 0 <= i < |order| && 0 <= j < |order| && Located(v, order[j]) && !Located(v, order[i]) && Located(w, order[i])
      ensures j < i
    {
      RunAppears(c, v, run, w, order[i]);
    }
  }

  // ---------------------------------------------------------------------------
  //  What a pass misses
  // ---------------------------------------------------------------------------

  /** Some run of the system, in which no create revives a location, leads from v to w. */
  ghost predicate Between(c: Config, v: World, w: World) {
    exists run :: Leads(c, v, run, w) && NoneRevived(c, v, run)
  }

  /** The states that the page requests of one pass find, one after the other. */
  ghost predicate Requests(c: Config, ws: seq<World>, order: seq<FileSource>) {
    && ws != []
    && (forall k | 0 <= k < |ws| :: ByCreation(ws[k], order))
    && (forall i, j {:trigger Between(c, ws[i], ws[j])} | 0 <= i && j == i + 1 < |ws| :: Between(c, ws[i], ws[j]))
  }

  function Changes(ws: seq<World>, order: seq<FileSource>): seq<GcPaging.Change>
    requires ws != []
    decreases |ws|
  {
    if |ws| == 1 then [] else [ChangeOf(ws[0], ws[1], order)] + Changes(ws[1..], order)
  }

  /** The pass does not see the location of the i-th source. */
  predicate Misses(ws: seq<World>, order: seq<FileSource>, limit: nat, i: nat)
    requires ws != [] && limit >= 1
  {
    Tag(i) !in GcPaging.Listed(ViewOf(ws[0], order), Changes(ws, order), limit, 0)
  }

  lemma {:induction false} ViewIds(w: World, order: seq<FileSource>, n: nat, k: nat)
    requires n <= |order| && k < |View(w, order, n)|
    ensures View(w, order, n)[k].id < n && View(w, order, n)[k] == Tag(View(w, order, n)[k].id)
    decreases n
  {
    if k < |View(w, order, n - 1)| { ViewIds(w, order, n - 1, k); }
  }

  lemma {:induction false} ViewRises(w: World, order: seq<FileSource>, n: nat, k: nat, m: nat)
    requires n <= |order| && k < m < |View(w, order, n)|
    ensures View(w, order, n)[k].id < View(w, order, n)[m].id
    decreases n
  {
    if m < |View(w, order, n - 1)| { ViewRises(w, order, n - 1, k, m); } else { ViewIds(w, order, n - 1, k); }
  }

  lemma ViewApart(w: World, order: seq<FileSource>)
    ensures GcPaging.Apart(ViewOf(w, order))
  {
    var v := ViewOf(w, order);
    forall k, m | 0 <= k < m < |v| ensures GcPaging.Differ(v, k, m) { ViewRises(w, order, |order|, k, m); }
  }

  lemma RequestsRest(c: Config, ws: seq<World>, order: seq<FileSource>)
    requires Requests(c, ws, order) && |ws| > 1
    ensures Appends(ws[0], ws[1], order) && Requests(c, ws[1..], order)
  {
    assert Between(c, ws[0], ws[1]) && ByCreation(ws[0], order);
    BetweenAppends(c, ws[0], ws[1], order);
    var rest := ws[1..];
    forall k | 0 <= k < |rest| ensures ByCreation(rest[k], order) { assert ByCreation(ws[k + 1], order); }
    forall i, j | 0 <= i && j == i + 1 < |rest| ensures Between(c, rest[i], rest[j]) {
      assert Between(c, ws[i + 1], ws[j + 1]);
    }
  }

  lemma BetweenAppends(c: Config, v: World, w: World, order: seq<FileSource>)
    requires Between(c, v, w) && ByCreation(v, order)
    ensures Appends(v, w, order)
  {
    var run :| Leads(c, v, run, w) && NoneRevived(c, v, run);
    RunAppends(c, v, run, w, order);
  }

  lemma {:induction false} HistoryOrderly(c: Config, ws: seq<World>, order: seq<FileSource>)
    requires Requests(c, ws, order)
    ensures GcPaging.Orderly(ViewOf(ws[0], order), Changes(ws, order))
    decreases |ws|
  {
    ViewApart(ws[0], order);
    if |ws| > 1 {
      RequestsRest(c, ws, order);
      HistoryOrderly(c, ws[1..], order);
      ViewChanges(ws[0], ws[1], order);
      assert Changes(ws, order)[1..] == Changes(ws[1..], order);
    }
  }

  lemma {:induction false} LastingSurvives(ws: seq<World>, order: seq<FileSource>, i: nat)
    requires ws != [] && i < |order| && forall k | 0 <= k < |ws| :: Located(ws[k], order[i])
    ensures GcPaging.Survives(Changes(ws, order), Tag(i))
    decreases |ws|
  {
    if |ws| > 1 {
      LastingSurvives(ws[1..], order, i);
      var changes, rest := Changes(ws, order), Changes(ws[1..], order);
      assert Located(ws[0], order[i]) && Located(ws[1], order[i]);
      forall k | 0 <= k < |changes| ensures Tag(i).id !in changes[k].gone {
        if k > 0 { assert changes[k] == rest[k - 1]; }
      }
    }
  }

  lemma {:induction false} MarkIn(w: World, order: seq<FileSource>, n: nat, i: nat)
    requires i < n <= |order| && Located(w, order[i])
    ensures exists k | 0 <= k < |View(w, order, n)| :: View(w, order, n)[k] == Tag(i)
    decreases n
  {
    if i < n - 1 {
      MarkIn(w, order, n - 1, i);
      var k :| 0 <= k < |View(w, order, n - 1)| && View(w, order, n - 1)[k] == Tag(i);
      assert View(w, order, n)[k] == Tag(i);
    } else {
      assert View(w, order, n)[|View(w, order, n - 1)|] == Tag(i);
    }
  }

  /** Whatever the system does between the page requests of a pass: a source whose location is
      there all the time is missed if and only if some page boundary steps over it; so none is, if
      no location is deleted that the paging has passed. */
  lemma MissesIff(c: Config, ws: seq<World>, order: seq<FileSource>, limit: nat, i: nat)
    requires Requests(c, ws, order) && limit >= 1
    requires i < |order| && forall k | 0 <= k < |ws| :: Located(ws[k], order[i])
    ensures Misses(ws, order, limit, i) <==>
      GcPaging.Skipped(ViewOf(ws[0], order), Changes(ws, order), limit, 0, Tag(i))
    ensures GcPaging.Quiet(ViewOf(ws[0], order), Changes(ws, order), limit, 0) ==> !Misses(ws, order, limit, i)
  {
    var v, changes := ViewOf(ws[0], order), Changes(ws, order);
    HistoryOrderly(c, ws, order);
    LastingSurvives(ws, order, i);
    assert Located(ws[0], order[i]);
    MarkIn(ws[0], order, |order|, i);
    GcPaging.ListedIff(v, changes, limit, 0, Tag(i));
    if GcPaging.Quiet(v, changes, limit, 0) { GcPaging.QuietSkipsNone(v, changes, limit, 0, Tag(i)); }
  }

  // ---------------------------------------------------------------------------
  //  A run that loses bytes by a miss
  // ---------------------------------------------------------------------------

  /** Names of distinct lengths. */
  function Name(i: nat): FileSource { seq(i + 1, _ => 'f') }

  function Names(n: nat): seq<FileSource> { seq(n, i requires 0 <= i < n => Name(i)) }

  lemma NamesDiffer(i: nat, j: nat)
    requires i != j
    ensures Name(i) != Name(j)
  {
    assert |Name(i)| == i + 1 && |Name(j)| == j + 1;
  }

  /** A source that instance i has registered at time 0. */
  function Archived(c: Config, i: nat): Slot { Moved(c, Fresh(c, i, true), 0, i, NoBlob, Done) }

  function Stock(c: Config, i: nat, n: nat): map<FileSource, Slot> {
    if n == 0 then map[] else Stock(c, i, n - 1)[Name(n - 1) := Archived(c, i)]
  }

  lemma {:induction false} StockIs(c: Config, i: nat, n: nat, f: FileSource)
    ensures f in Stock(c, i, n) <==> exists k | 0 <= k < n :: f == Name(k)
    ensures f in Stock(c, i, n) ==> Stock(c, i, n)[f] == Archived(c, i)
    decreases n
  {
    if n > 0 {
      StockIs(c, i, n - 1, f);
      if f == Name(n - 1) { assert exists k | 0 <= k < n :: f == Name(k); }
    }
  }

  lemma {:induction false} StockReachable(c: Config, i: nat, n: nat)
    requires i in c.instances
    ensures Reachable(c, World(0, Stock(c, i, n)))
    decreases n
  {
    if n == 0 {
      StartReachable(c);
    } else {
      StockReachable(c, i, n - 1);
      var k := Context(Name(n - 1), Stock(c, i, n - 1));
      StockIs(c, i, n - 1, k.source);
      forall j: nat | j < n - 1 ensures Name(j) != k.source { NamesDiffer(j, n - 1); }
      FreshAttainable(c, k, i, true);
      MovedAttainable(c, k, 0, Fresh(c, i, true), i);
    }
  }

  lemma DoneInTime(c: Config, i: nat, t: int)
    ensures InTime(c, t, Archived(c, i))
  {}

  /** n sources, registered long ago. */
  function Aged(c: Config, i: nat, n: nat): World { World(c.grace, Stock(c, i, n)) }

  lemma AgedReachable(c: Config, i: nat, n: nat)
    requires WellFormed(c) && i in c.instances
    ensures Reachable(c, Aged(c, i, n))
  {
    StockReachable(c, i, n);
    var w := World(0, Stock(c, i, n));
    forall f | f in w.slots ensures InTime(c, c.grace, w.slots[f]) {
      StockIs(c, i, n, f);
      DoneInTime(c, i, c.grace);
    }
    Onward(c, w, Tick(c.grace));
  }

  /** The same after the record of the first source was deleted. */
  function Thinned(c: Config, i: nat, n: nat): World
  {
    var w := Aged(c, i, n);
    w.(slots := w.slots[Name(0) := Deleted(Archived(c, i))])
  }

  lemma SlotsOf(c: Config, i: nat, n: nat, j: nat)
    requires j < n
    ensures SlotOf(Aged(c, i, n), Name(j)) == Archived(c, i)
    ensures SlotOf(Thinned(c, i, n), Name(j)) == if j == 0 then Deleted(Archived(c, i)) else Archived(c, i)
  {
    StockIs(c, i, n, Name(j));
    if j > 0 { NamesDiffer(j, 0); }
  }

  predicate AllLocated(w: World, n: nat) { forall j | 0 <= j < n :: Located(w, Name(j)) }

  predicate AllButFirst(w: World, n: nat) { !Located(w, Name(0)) && forall j | 0 < j < n :: Located(w, Name(j)) }

  lemma {:induction false} ViewOfAll(w: World, n: nat, k: nat)
    requires k <= n && AllLocated(w, n)
    ensures |View(w, Names(n), k)| == k && forall j | 0 <= j < k :: View(w, Names(n), k)[j] == Tag(j)
    decreases k
  {
    if k > 0 {
      ViewOfAll(w, n, k - 1);
      assert Names(n)[k - 1] == Name(k - 1);
    }
  }

  lemma {:induction false} ViewButFirst(w: World, n: nat, k: nat)
    requires 1 <= k <= n && AllButFirst(w, n)
    ensures |View(w, Names(n), k)| == k - 1 && forall j | 0 <= j < k - 1 :: View(w, Names(n), k)[j] == Tag(j + 1)
    decreases k
  {
    assert Names(n)[k - 1] == Name(k - 1);
    if k > 1 {
      ViewButFirst(w, n, k - 1);
    } else {
      assert View(w, Names(n), 0) == [];
    }
  }

  lemma DeletionBetween(c: Config, i: nat, n: nat)
    requires n >= 1
    ensures Between(c, Aged(c, i, n), Thinned(c, i, n))
  {
    var v, w, e := Aged(c, i, n), Thinned(c, i, n), On(Name(0), Delete);
    SlotsOf(c, i, n, 0);
    assert Possible(c, v, e) && Advance(c, v, e) == w && !Revives(v, e);
    assert Leads(c, w, [], w) && NoneRevived(c, w, []);
    assert [e][1..] == [];
    assert Leads(c, v, [e], w) && NoneRevived(c, v, [e]);
  }

  predicate AllIssued(w: World, n: nat) { forall j | 0 <= j < n :: SlotOf(w, Name(j)).issued }

  lemma IssuedByCreation(w: World, n: nat)
    requires AllIssued(w, n)
    ensures ByCreation(w, Names(n))
  {
    assert forall j | 0 <= j < n :: Names(n)[j] == Name(j);
  }

  /** Two states, all sources issued, as the page requests of one pass find them. */
  lemma IssuedRequests(c: Config, v: World, w: World, n: nat)
    requires Between(c, v, w) && AllIssued(v, n) && AllIssued(w, n)
    ensures Requests(c, [v, w], Names(n))
  {
    IssuedByCreation(v, n);
    IssuedByCreation(w, n);
  }

  /** The history of a pass with two page requests. */
  lemma TwoRequests(c: Config, v: World, w: World, order: seq<FileSource>)
    requires Requests(c, [v, w], order)
    ensures Changes([v, w], order) == [ChangeOf(v, w, order)]
    ensures ViewOf(w, order) == GcPaging.Changed(ViewOf(v, order), ChangeOf(v, w, order))
    ensures GcPaging.Orderly(ViewOf(v, order), [ChangeOf(v, w, order)])
  {
    var ws := [v, w];
    HistoryOrderly(c, ws, order);
    RequestsRest(c, ws, order);
    ViewChanges(v, w, order);
    assert ws[1..] == [w];
  }

  /** Two page requests with a step over in between: a miss. */
  lemma SteppedMiss(c: Config, v: World, w: World, order: seq<FileSource>, limit: nat, i: nat)
    requires limit >= 1 && Requests(c, [v, w], order) && i !in Gone(v, w, order) && limit < |ViewOf(v, order)|
    requires GcPaging.Ahead(ViewOf(v, order), 0, Tag(i))
    requires GcPaging.SteppedOver(ViewOf(v, order), ViewOf(w, order), limit, Tag(i))
    ensures Misses([v, w], order, limit, i)
  {
    TwoRequests(c, v, w, order);
    GcPaging.OneChange(ViewOf(v, order), ChangeOf(v, w, order), limit, 0, Tag(i));
  }

  /** Of limit + 1 sources the first loses its location after the first page: the pass misses the
      last one. */
  lemma ShiftMisses(c: Config, v: World, w: World, limit: nat)
    requires limit >= 1 && Requests(c, [v, w], Names(limit + 1))
    requires AllLocated(v, limit + 1) && AllButFirst(w, limit + 1)
    ensures Misses([v, w], Names(limit + 1), limit, limit)
  {
    var n := limit + 1;
    ViewOfAll(v, n, n);
    ViewButFirst(w, n, n);
    var a, b := ViewOf(v, Names(n)), ViewOf(w, Names(n));
    assert a[limit] == Tag(limit) && b[limit - 1] == Tag(limit);
    assert Names(n)[limit] == Name(limit);
    SteppedMiss(c, v, w, Names(n), limit, limit);
  }

  lemma ThinnedLocated(c: Config, i: nat, n: nat)
    requires n >= 1
    ensures AllLocated(Aged(c, i, n), n) && AllButFirst(Thinned(c, i, n), n)
    ensures AllIssued(Aged(c, i, n), n) && AllIssued(Thinned(c, i, n), n)
  {
    SlotsOf(c, i, n, 0);
    forall j | 0 <= j < n
      ensures Located(Aged(c, i, n), Name(j)) && (j > 0 ==> Located(Thinned(c, i, n), Name(j)))
      ensures SlotOf(Aged(c, i, n), Name(j)).issued && SlotOf(Thinned(c, i, n), Name(j)).issued
    {
      SlotsOf(c, i, n, j);
    }
  }

  /** The same after the orphan pass has deleted the last source's object. */
  function Plundered(c: Config, i: nat, limit: nat): World {
    var w := Thinned(c, i, limit + 1);
    w.(slots := w.slots[Name(limit) := Archived(c, i).(persistent := NoBlob)])
  }

  lemma PassSteps(c: Config, i: nat, now: int)
    requires WellFormed(c) && !c.listingStable && now == c.grace
    ensures var s := Archived(c, i); var t := s.(pass := Pass(false, 0));
      && Enabled(c, now, s, PassBegin(0, true)) && Apply(c, now, s, PassBegin(0, true)) == t
      && Enabled(c, now, t, PassDelete) && Apply(c, now, t, PassDelete) == s.(persistent := NoBlob)
      && !BytesKept(s.(persistent := NoBlob))
  {}

  lemma TwoEvents(c: Config, w: World, f: FileSource, a: Action, b: Action, t: Slot, u: Slot)
    requires Enabled(c, w.now, SlotOf(w, f), a) && t == Apply(c, w.now, SlotOf(w, f), a)
    requires Enabled(c, w.now, t, b) && u == Apply(c, w.now, t, b)
    ensures Leads(c, w, [On(f, a), On(f, b)], w.(slots := w.slots[f := u]))
  {
    var run, x, z := [On(f, a), On(f, b)], w.(slots := w.slots[f := t]), w.(slots := w.slots[f := u]);
    assert Advance(c, w, run[0]) == x && Advance(c, x, run[1]) == z;
    assert run[1..] == [run[1]] && run[1..][1..] == [];
    assert Leads(c, z, [], z);
    assert Leads(c, x, run[1..], z);
  }

  lemma PassPlunders(c: Config, i: nat, limit: nat)
    requires WellFormed(c) && !c.listingStable && limit >= 1
    ensures Leads(c, Thinned(c, i, limit + 1), PassOn(limit), Plundered(c, i, limit))
    ensures !BytesKept(SlotOf(Plundered(c, i, limit), Name(limit)))
  {
    var s := Archived(c, i);
    SlotsOf(c, i, limit + 1, limit);
    PassSteps(c, i, c.grace);
    TwoEvents(c, Thinned(c, i, limit + 1), Name(limit), PassBegin(0, true), PassDelete,
              s.(pass := Pass(false, 0)), s.(persistent := NoBlob));
  }

  function PassOn(limit: nat): seq<Event> { [On(Name(limit), PassBegin(0, true)), On(Name(limit), PassDelete)] }

  /** A pass reads its first page in state v and the others in w, misses source i although its
      location is there all the time, and goes on to lose the bytes of its ready record. */
  ghost predicate LossByMiss(c: Config, limit: nat, v: World, w: World, run: seq<Event>, z: World, i: nat)
    requires limit >= 1
  {
    Reachable(c, v) && Overlooked(c, limit, v, w, i) && Leads(c, w, run, z) && !BytesKept(SlotOf(z, Name(i)))
  }

  ghost predicate Overlooked(c: Config, limit: nat, v: World, w: World, i: nat)
    requires limit >= 1
  {
    && i <= limit && Located(v, Name(i)) && Located(w, Name(i))
    && Requests(c, [v, w], Names(limit + 1)) && Misses([v, w], Names(limit + 1), limit, i)
  }

  lemma ShiftOverlooks(c: Config, v: World, w: World, limit: nat)
    requires limit >= 1 && Between(c, v, w) && AllIssued(v, limit + 1) && AllIssued(w, limit + 1)
    requires AllLocated(v, limit + 1) && AllButFirst(w, limit + 1)
    ensures Overlooked(c, limit, v, w, limit)
  {
    IssuedRequests(c, v, w, limit + 1);
    ShiftMisses(c, v, w, limit);
  }

  lemma LastOverlooked(c: Config, i: nat, limit: nat)
    requires limit >= 1
    ensures Overlooked(c, limit, Aged(c, i, limit + 1), Thinned(c, i, limit + 1), limit)
  {
    ThinnedLocated(c, i, limit + 1);
    DeletionBetween(c, i, limit + 1);
    ShiftOverlooks(c, Aged(c, i, limit + 1), Thinned(c, i, limit + 1), limit);
  }

  lemma MissLoses(c: Config, i: nat, limit: nat)
    requires WellFormed(c) && !c.listingStable && limit >= 1 && i in c.instances
    ensures var n := limit + 1;
      LossByMiss(c, limit, Aged(c, i, n), Thinned(c, i, n), PassOn(limit), Plundered(c, i, limit), limit)
  {
    AgedReachable(c, i, limit + 1);
    LastOverlooked(c, i, limit);
    PassPlunders(c, i, limit);
  }

  /** If the listing is not stable then, for every page limit, there is a run in which limit + 1
      sources are registered, the first record is deleted after the first page of an orphan pass,
      the pass therefore misses the last source, and deletes the object of its ready record. */
  lemma MissedReferenceLosesBytes(c: Config, limit: nat)
    requires WellFormed(c) && !c.listingStable && limit >= 1
    ensures exists v, w, run, z, i :: LossByMiss(c, limit, v, w, run, z, i)
  {
    var i :| i in c.instances;
    MissLoses(c, i, limit);
  }

  lemma {:induction false} LeadsFar(c: Config, v: World, run: seq<Event>, w: World)
    requires Reachable(c, v) && Leads(c, v, run, w)
    ensures Reachable(c, w)
    decreases run
  {
    if run != [] {
      Onward(c, v, run[0]);
      LeadsFar(c, Advance(c, v, run[0]), run[1..], w);
    }
  }

  lemma LossExposes(c: Config, limit: nat, v: World, w: World, run: seq<Event>, z: World, i: nat)
    requires limit >= 1 && LossByMiss(c, limit, v, w, run, z, i)
    ensures !NeverLosesBytes(c)
  {
    assert Between(c, [v, w][0], [v, w][1]);
    var first :| Leads(c, v, first, w) && NoneRevived(c, v, first);
    LeadsFar(c, v, first, w);
    LeadsFar(c, w, run, z);
    assert Name(i) in z.slots;
  }

  /** The exact condition: ready records keep their bytes in every run if and only if the
      location update and the record reads are reliable, the paging over the locations misses
      none, and GC either claims leases under an identity of its own or is not interleaved with
      creates.  The bytes that are kept are then those that the client has uploaded. */
  lemma NeverLosesBytesIff(c: Config)
    requires WellFormed(c)
    ensures NeverLosesBytes(c) <==> Sound(c)
    ensures UploadedBytes.NeverLosesUploads(c) <==> Sound(c)
  {
    UploadedBytes.UploadsIff(c);
    if Sound(c) {
      SoundNeverLosesBytes(c);
    } else if !c.savesReliable {
      IgnoredSaveLosesBytes(c);
    } else if !c.readsReliable {
      FailedReadLosesBytes(c);
    } else if !c.listingStable {
      MissedReferenceLosesBytes(c, 500);
      var v, w, run, z, i :| LossByMiss(c, 500, v, w, run, z, i);
      LossExposes(c, 500, v, w, run, z, i);
    } else {
      SharedIdentityLosesBytes(c);
    }
  }
}
