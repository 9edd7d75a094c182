/**
  Is a dry run a faithful preview?  It reports what a real run from the same state deletes
  exactly if no two leases name the same deletable location.
*/
module GcPreview {
  import opened Base
  import opened GcTask

  /** The locations that the leases name and that may be deleted, judged on an unchanged state. */
  function Doomed(c: Setup, ls: seq<Location>, leases: seq<Lease>): seq<Location> {
    if leases == [] then []
    else
      var x := Resolve(ls, leases[|leases| - 1]);
      Doomed(c, ls, leases[..|leases| - 1]) +
      if x.Some? && x.value.source !in c.ready && x.value.ref.Some? then [x.value] else []
  }

  function Ids(dead: seq<Location>): (r: seq<Id>)
    ensures |r| == |dead|
  {
    seq(|dead|, i requires 0 <= i < |dead| => OfFile(dead[i].id))
  }

  predicate Distinct(ids: seq<Id>) { forall i, j | 0 <= i < j < |ids| :: ids[i] != ids[j] }

  predicate UniqueIds(ls: seq<Location>) { forall i, j | 0 <= i < j < |ls| :: ls[i].id != ls[j].id }

  /** A location that refers into the persistent container says so. */
  predicate Zoned(ls: seq<Location>, c: Setup) {
    forall i | 0 <= i < |ls| :: ls[i].ref.Some? && ls[i].ref.value.container == c.container ==> ls[i].zone == Persistent
  }

  predicate Dead(dead: seq<Location>, id: nat) { exists i | 0 <= i < |dead| :: dead[i].id == id }

  function Minus(ls: seq<Location>, dead: seq<Location>): seq<Location> {
    if ls == [] then [] else (if Dead(dead, ls[0].id) then [] else [ls[0]]) + Minus(ls[1..], dead)
  }

  // ---------------------------------------------------------------------------
  //  The dry run
  // ---------------------------------------------------------------------------

  /** A dry run changes nothing and lists the doomed files, one entry per lease. */
  lemma {:induction false} DryPass(c: Setup, d: Disk, leases: seq<Lease>)
    requires c.dry
    ensures LeasePass(c, Outcome(d, NOTHING), leases).disk == d
    ensures LeasePass(c, Outcome(d, NOTHING), leases).report.deleted == Ids(Doomed(c, d.locations, leases))
    decreases |leases|
  {
    if leases != [] { DryPass(c, d, leases[..|leases| - 1]); }
  }

  // ---------------------------------------------------------------------------
  //  The real run
  // ---------------------------------------------------------------------------

  lemma {:induction false} ByIdIn(ls: seq<Location>, id: nat)
    ensures ById(ls, id).Some? ==> ById(ls, id).value in ls && ById(ls, id).value.id == id
    decreases |ls|
  {
    if ls != [] { ByIdIn(ls[1..], id); }
  }

  lemma {:induction false} BySourceIn(ls: seq<Location>, source: nat)
    ensures BySource(ls, source).Some? ==> BySource(ls, source).value in ls
    decreases |ls|
  {
    if ls != [] { BySourceIn(ls[1..], source); }
  }

  lemma ResolveIn(ls: seq<Location>, l: Lease)
    ensures Resolve(ls, l).Some? ==> Resolve(ls, l).value in ls
  {
    if l.id.Some? { ByIdIn(ls, l.id.value); }
    if KeyOf(l).Some? { BySourceIn(ls, KeyOf(l).value); }
  }

  lemma {:induction false} WithoutGone(ls: seq<Location>, id: nat, x: Location)
    ensures x in Without(ls, id) <==> x in ls && x.id != id
    decreases |ls|
  {
    if ls != [] {
      WithoutGone(ls[1..], id, x);
      assert ls == [ls[0]] + ls[1..];
    }
  }

  /** No location of a file that was reported is left. */
  ghost predicate NoneLeft(o: Outcome) {
    forall x | x in o.disk.locations :: OfFile(x.id) !in o.report.deleted
  }

  lemma CandidateDistinct(c: Setup, o: Outcome, l: Lease)
    requires !c.dry && Distinct(o.report.deleted) && NoneLeft(o)
    ensures Distinct(Candidate(c, o, l).report.deleted) && NoneLeft(Candidate(c, o, l))
  {
    var x := Resolve(o.disk.locations, l);
    ResolveIn(o.disk.locations, l);
    var p := Candidate(c, o, l);
    if p.report.deleted != o.report.deleted {
      forall y | y in p.disk.locations ensures OfFile(y.id) !in p.report.deleted {
        WithoutGone(o.disk.locations, x.value.id, y);
      }
    }
  }

  /** A real run never reports a file twice. */
  lemma {:induction false} RealDistinct(c: Setup, d: Disk, leases: seq<Lease>)
    requires !c.dry
    ensures Distinct(LeasePass(c, Outcome(d, NOTHING), leases).report.deleted)
    ensures NoneLeft(LeasePass(c, Outcome(d, NOTHING), leases))
    decreases |leases|
  {
    if leases != [] {
      var n := |leases| - 1;
      RealDistinct(c, d, leases[..n]);
      CandidateDistinct(c, LeasePass(c, Outcome(d, NOTHING), leases[..n]), leases[n]);
    }
  }

  lemma {:induction false} ByIdMinus(ls: seq<Location>, dead: seq<Location>, id: nat)
    ensures ById(ls, id).None? ==> ById(Minus(ls, dead), id).None?
    ensures !Dead(dead, id) ==> ById(Minus(ls, dead), id) == ById(ls, id)
    decreases |ls|
  {
    if ls != [] {
      ByIdMinus(ls[1..], dead, id);
      if !Dead(dead, ls[0].id) { assert Minus(ls, dead)[1..] == Minus(ls[1..], dead); }
      else { assert Minus(ls, dead) == Minus(ls[1..], dead); }
    }
  }

  lemma {:induction false} BySourceMinus(ls: seq<Location>, dead: seq<Location>, source: nat)
    ensures BySource(ls, source).None? ==> BySource(Minus(ls, dead), source).None?
    ensures BySource(ls, source).Some? && !Dead(dead, BySource(ls, source).value.id) ==>
      BySource(Minus(ls, dead), source) == BySource(ls, source)
    decreases |ls|
  {
    if ls != [] {
      BySourceMinus(ls[1..], dead, source);
      if !Dead(dead, ls[0].id) { assert Minus(ls, dead)[1..] == Minus(ls[1..], dead); }
      else { assert Minus(ls, dead) == Minus(ls[1..], dead); }
    }
  }

  /** A lease resolves as before unless its location is dead. */
  lemma ResolveMinus(ls: seq<Location>, dead: seq<Location>, l: Lease)
    requires Resolve(ls, l).Some? ==> !Dead(dead, Resolve(ls, l).value.id)
    ensures Resolve(Minus(ls, dead), l) == Resolve(ls, l)
  {
    if l.id.Some? {
      ByIdIn(ls, l.id.value);
      ByIdMinus(ls, dead, l.id.value);
    }
    if KeyOf(l).Some? { BySourceMinus(ls, dead, KeyOf(l).value); }
  }

  /** The removal of a dead location's object hit this key. */
  predicate Hit(dead: seq<Location>, c: Setup, key: nat) {
    exists i | 0 <= i < |dead| :: dead[i].zone == Persistent && dead[i].ref == Some(Ref(c.container, key))
  }

  function Sieve(es: seq<Entry>, c: Setup, dead: seq<Location>): seq<Entry> {
    if es == [] then []
    else Sieve(es[..|es| - 1], c, dead) + if Hit(dead, c, es[|es| - 1].key) then [] else [es[|es| - 1]]
  }

  lemma DeadMore(dead: seq<Location>, x: Location, id: nat)
    ensures Dead(dead + [x], id) <==> Dead(dead, id) || x.id == id
  {
    if Dead(dead, id) {
      var i :| 0 <= i < |dead| && dead[i].id == id;
      assert (dead + [x])[i].id == id;
    }
    if x.id == id { assert (dead + [x])[|dead|].id == id; }
  }

  lemma HitMore(dead: seq<Location>, x: Location, c: Setup, key: nat)
    ensures Hit(dead + [x], c, key) <==>
      Hit(dead, c, key) || (x.zone == Persistent && x.ref == Some(Ref(c.container, key)))
  {
    var more := dead + [x];
    if Hit(dead, c, key) {
      var i :| 0 <= i < |dead| && dead[i].zone == Persistent && dead[i].ref == Some(Ref(c.container, key));
      assert more[i] == dead[i];
    }
    if x.zone == Persistent && x.ref == Some(Ref(c.container, key)) { assert more[|dead|] == x; }
  }

  lemma {:induction false} MinusMore(ls: seq<Location>, dead: seq<Location>, x: Location)
    ensures Without(Minus(ls, dead), x.id) == Minus(ls, dead + [x])
    decreases |ls|
  {
    if ls != [] {
      MinusMore(ls[1..], dead, x);
      DeadMore(dead, x, ls[0].id);
      if Dead(dead, ls[0].id) {
        assert Minus(ls, dead) == Minus(ls[1..], dead);
      } else {
        assert Minus(ls, dead) == [ls[0]] + Minus(ls[1..], dead);
        assert Minus(ls, dead)[1..] == Minus(ls[1..], dead);
      }
    }
  }

  lemma DropSnoc(es: seq<Entry>, e: Entry, key: nat)
    ensures Drop(es + [e], key) == Drop(es, key) + if e.key == key then [] else [e]
  {
    assert (es + [e])[..|es|] == es;
  }

  lemma {:induction false} SieveMore(es: seq<Entry>, c: Setup, dead: seq<Location>, x: Location)
    ensures Sieve(es, c, dead + [x]) ==
      if x.zone == Persistent && x.ref.Some? && x.ref.value.container == c.container
      then Drop(Sieve(es, c, dead), x.ref.value.key) else Sieve(es, c, dead)
    decreases |es|
  {
    if es != [] {
      var n := |es| - 1;
      SieveMore(es[..n], c, dead, x);
      HitMore(dead, x, c, es[n].key);
      if x.zone == Persistent && x.ref.Some? && x.ref.value.container == c.container {
        DropSnoc(Sieve(es[..n], c, dead), es[n], x.ref.value.key);
        if Hit(dead, c, es[n].key) { assert Sieve(es, c, dead) == Sieve(es[..n], c, dead); }
      }
    }
  }

  /** The staging objects of dead locations. */
  function StagingOf(dead: seq<Location>): set<Ref> {
    set i | 0 <= i < |dead| && dead[i].zone == Staging && dead[i].ref.Some? :: dead[i].ref.value
  }

  lemma StagingMore(dead: seq<Location>, x: Location)
    requires x.ref.Some?
    ensures StagingOf(dead + [x]) == StagingOf(dead) + if x.zone == Staging then {x.ref.value} else {}
  {
    var more := dead + [x];
    assert more[|dead|] == x;
    forall r | r in StagingOf(dead) ensures r in StagingOf(more) {
      var i :| 0 <= i < |dead| && dead[i].zone == Staging && dead[i].ref.Some? && dead[i].ref.value == r;
      assert more[i] == dead[i];
    }
    forall r | r in StagingOf(more) && !(x.zone == Staging && r == x.ref.value) ensures r in StagingOf(dead) {
      var i :| 0 <= i < |more| && more[i].zone == Staging && more[i].ref.Some? && more[i].ref.value == r;
      assert more[i] == dead[i];
    }
  }

  /** After the doomed files `dead`, in a real run. */
  ghost predicate After(c: Setup, d: Disk, dead: seq<Location>, o: Outcome) {
    && o.report.deleted == Ids(dead)
    && o.disk.locations == Minus(d.locations, dead)
    && o.disk.persistent == Sieve(d.persistent, c, dead)
    && o.disk.staging == d.staging - StagingOf(dead)
  }

  lemma DeleteFollows(c: Setup, d: Disk, dead: seq<Location>, o: Outcome, x: Location)
    requires !c.dry && After(c, d, dead, o) && x.ref.Some? && c.works(x.ref.value)
    ensures After(c, d, dead + [x], DeleteFile(c, o, x))
  {
    MinusMore(d.locations, dead, x);
    SieveMore(d.persistent, c, dead, x);
    StagingMore(dead, x);
    assert Ids(dead + [x]) == Ids(dead) + [OfFile(x.id)];
  }

  lemma {:induction false} MinusNothing(ls: seq<Location>)
    ensures Minus(ls, []) == ls
    decreases |ls|
  {
    if ls != [] { MinusNothing(ls[1..]); }
  }

  lemma {:induction false} SieveNothing(es: seq<Entry>, c: Setup)
    ensures Sieve(es, c, []) == es
    decreases |es|
  {
    if es != [] { SieveNothing(es[..|es| - 1], c); }
  }

  lemma DistinctAlive(dead: seq<Location>, x: Location)
    requires Distinct(Ids(dead + [x]))
    ensures !Dead(dead, x.id)
  {
    var ids := Ids(dead + [x]);
    forall i | 0 <= i < |dead| ensures dead[i].id != x.id {
      assert ids[i] != ids[|dead|];
    }
  }

  /** A location that must not be deleted is not among the doomed (ids being unique). */
  lemma {:induction false} DoomedAreDoomed(c: Setup, ls: seq<Location>, leases: seq<Lease>, i: nat)
    requires i < |Doomed(c, ls, leases)|
    ensures var x := Doomed(c, ls, leases)[i]; x in ls && x.source !in c.ready && x.ref.Some?
    decreases |leases|
  {
    var n := |leases| - 1;
    ResolveIn(ls, leases[n]);
    if i < |Doomed(c, ls, leases[..n])| { DoomedAreDoomed(c, ls, leases[..n], i); }
  }

  lemma SparedAlive(c: Setup, ls: seq<Location>, leases: seq<Lease>, x: Location)
    requires UniqueIds(ls) && x in ls && (x.source in c.ready || x.ref.None?)
    ensures !Dead(Doomed(c, ls, leases), x.id)
  {
    var dead := Doomed(c, ls, leases);
    forall i | 0 <= i < |dead| ensures dead[i].id != x.id {
      DoomedAreDoomed(c, ls, leases, i);
      var a :| 0 <= a < |ls| && ls[a] == x;
      var b :| 0 <= b < |ls| && ls[b] == dead[i];
      if a != b { assert ls[a].id != ls[b].id; }
    }
  }

  lemma {:induction false} RealFollows(c: Setup, d: Disk, leases: seq<Lease>)
    requires !c.dry && (forall r: Ref :: c.works(r)) && UniqueIds(d.locations)
    requires Distinct(Ids(Doomed(c, d.locations, leases)))
    ensures After(c, d, Doomed(c, d.locations, leases), LeasePass(c, Outcome(d, NOTHING), leases))
    decreases |leases|
  {
    var ls := d.locations;
    if leases == [] {
      MinusNothing(ls);
      SieveNothing(d.persistent, c);
    } else {
      var n := |leases| - 1;
      var dead, all := Doomed(c, ls, leases[..n]), Doomed(c, ls, leases);
      assert forall i | 0 <= i < |dead| :: Ids(dead)[i] == Ids(all)[i];
      RealFollows(c, d, leases[..n]);
      ResolveIn(ls, leases[n]);
      var x := Resolve(ls, leases[n]);
      var o := LeasePass(c, Outcome(d, NOTHING), leases[..n]);
      if x.None? || x.value.source in c.ready || x.value.ref.None? {
        if x.Some? { SparedAlive(c, ls, leases[..n], x.value); }
        ResolveMinus(ls, dead, leases[n]);
        assert all == dead;
        assert Candidate(c, o, leases[n]).disk == o.disk && Candidate(c, o, leases[n]).report.deleted == o.report.deleted;
      } else {
        assert all == dead + [x.value];
        DistinctAlive(dead, x.value);
        ResolveMinus(ls, dead, leases[n]);
        DeleteFollows(c, d, dead, o, x.value);
      }
    }
  }

  /** Every dead location is one of the locations. */
  ghost predicate Known(dead: seq<Location>, ls: seq<Location>) {
    forall i | 0 <= i < |dead| :: dead[i] in ls
  }

  lemma {:induction false} MinusIn(ls: seq<Location>, dead: seq<Location>, x: Location)
    ensures x in Minus(ls, dead) <==> x in ls && !Dead(dead, x.id)
    decreases |ls|
  {
    if ls != [] {
      MinusIn(ls[1..], dead, x);
      assert ls == [ls[0]] + ls[1..];
    }
  }

  lemma ReferencedIn(ls: seq<Location>, c: Setup, key: nat, x: Location)
    requires x in ls && x.ref == Some(Ref(c.container, key))
    ensures Referenced(ls, c, key)
  {
    var i :| 0 <= i < |ls| && ls[i] == x;
  }

  /** Deleting files with their objects creates no orphan and hides none. */
  lemma ReferencesAgree(ls: seq<Location>, c: Setup, dead: seq<Location>, key: nat)
    requires UniqueIds(ls) && Zoned(ls, c) && Known(dead, ls)
    ensures Hit(dead, c, key) ==> Referenced(ls, c, key)
    ensures !Hit(dead, c, key) ==> (Referenced(Minus(ls, dead), c, key) <==> Referenced(ls, c, key))
  {
    var left := Minus(ls, dead);
    if Hit(dead, c, key) {
      var i :| 0 <= i < |dead| && dead[i].zone == Persistent && dead[i].ref == Some(Ref(c.container, key));
      ReferencedIn(ls, c, key, dead[i]);
    } else {
      if Referenced(ls, c, key) {
        var a :| 0 <= a < |ls| && ls[a].ref == Some(Ref(c.container, key));
        forall i | 0 <= i < |dead| ensures dead[i].id != ls[a].id {
          var b :| 0 <= b < |ls| && ls[b] == dead[i];
          if a != b { assert ls[a].id != ls[b].id; }
        }
        MinusIn(ls, dead, ls[a]);
        ReferencedIn(left, c, key, ls[a]);
      }
      if Referenced(left, c, key) {
        var i :| 0 <= i < |left| && left[i].ref == Some(Ref(c.container, key));
        MinusIn(ls, dead, left[i]);
        ReferencedIn(ls, c, key, left[i]);
      }
    }
  }

  lemma OrphansSnoc(ls: seq<Location>, c: Setup, es: seq<Entry>, e: Entry)
    ensures Orphans(ls, c, es + [e]) == Orphans(ls, c, es) +
      if IsOrphan(ls, c, e) && (c.dry || c.works(Ref(c.container, e.key))) then [OfKey(e.key)] else []
  {
    assert (es + [e])[..|es|] == es;
  }

  lemma {:induction false} OrphansSame(ls: seq<Location>, c: Setup, dead: seq<Location>, es: seq<Entry>)
    requires UniqueIds(ls) && Zoned(ls, c) && Known(dead, ls) && forall r: Ref :: c.works(r)
    ensures Orphans(Minus(ls, dead), c.(dry := false), Sieve(es, c.(dry := false), dead)) ==
      Orphans(ls, c.(dry := true), es)
    decreases |es|
  {
    if es != [] {
      var act, dry := c.(dry := false), c.(dry := true);
      var n := |es| - 1;
      OrphansSame(ls, c, dead, es[..n]);
      ReferencesAgree(ls, act, dead, es[n].key);
      assert Referenced(ls, act, es[n].key) == Referenced(ls, dry, es[n].key);
      if Hit(dead, act, es[n].key) {
        assert Sieve(es, act, dead) == Sieve(es[..n], act, dead);
      } else {
        OrphansSnoc(Minus(ls, dead), act, Sieve(es[..n], act, dead), es[n]);
      }
    }
  }

  lemma {:induction false} DoomedByReady(a: Setup, b: Setup, ls: seq<Location>, leases: seq<Lease>)
    requires a.ready == b.ready
    ensures Doomed(a, ls, leases) == Doomed(b, ls, leases)
    decreases |leases|
  {
    if leases != [] { DoomedByReady(a, b, ls, leases[..|leases| - 1]); }
  }

  predicate AllFiles(s: seq<Id>) { forall i | 0 <= i < |s| :: s[i].OfFile? }

  predicate AllKeys(s: seq<Id>) { forall i | 0 <= i < |s| :: s[i].OfKey? }

  lemma {:induction false} OrphansAreKeys(ls: seq<Location>, c: Setup, es: seq<Entry>)
    ensures AllKeys(Orphans(ls, c, es))
    decreases |es|
  {
    if es != [] { OrphansAreKeys(ls, c, es[..|es| - 1]); }
  }

  /** Number of file ids at the front. */
  function Lead(s: seq<Id>): nat { if s != [] && s[0].OfFile? then 1 + Lead(s[1..]) else 0 }

  lemma {:induction false} LeadIs(a: seq<Id>, x: seq<Id>)
    requires AllFiles(a) && AllKeys(x)
    ensures Lead(a + x) == |a|
    decreases |a|
  {
    if a == [] {
      assert a + x == x;
    } else {
      LeadIs(a[1..], x);
      assert (a + x)[1..] == a[1..] + x;
    }
  }

  /** Lists of files followed by keys are equal only part by part. */
  lemma PartsEqual(a: seq<Id>, x: seq<Id>, b: seq<Id>, y: seq<Id>)
    requires AllFiles(a) && AllFiles(b) && AllKeys(x) && AllKeys(y) && a + x == b + y
    ensures a == b
  {
    LeadIs(a, x);
    LeadIs(b, y);
    assert a == (a + x)[..|a|] && b == (b + y)[..|b|];
  }

  lemma {:induction false} PassListsFiles(c: Setup, d: Disk, leases: seq<Lease>)
    ensures AllFiles(LeasePass(c, Outcome(d, NOTHING), leases).report.deleted)
    decreases |leases|
  {
    if leases != [] {
      var n := |leases| - 1;
      PassListsFiles(c, d, leases[..n]);
      var o := LeasePass(c, Outcome(d, NOTHING), leases[..n]);
      var p := Candidate(c, o, leases[n]);
      assert p.report.deleted == o.report.deleted ||
        p.report.deleted == o.report.deleted + [OfFile(Resolve(o.disk.locations, leases[n]).value.id)];
    }
  }

  /** If all removals succeed, a dry run reports exactly what a real run from the same state
      deletes if and only if no two of the leases name the same deletable location. */
  lemma PreviewIff(c: Setup, d: Disk, leases: seq<Lease>)
    requires forall r: Ref :: c.works(r)
    requires UniqueIds(d.locations) && Zoned(d.locations, c)
    ensures Deleted(c.(dry := true), d, leases) == Deleted(c.(dry := false), d, leases) <==>
      Distinct(Ids(Doomed(c, d.locations, leases)))
  {
    var dry, act := c.(dry := true), c.(dry := false);
    var o, p := LeasePass(dry, Outcome(d, NOTHING), leases), LeasePass(act, Outcome(d, NOTHING), leases);
    var dead := Doomed(act, d.locations, leases);
    DryPass(dry, d, leases);
    DoomedByReady(dry, act, d.locations, leases);
    DoomedByReady(c, act, d.locations, leases);
    if Distinct(o.report.deleted) {
      RealFollows(act, d, leases);
      forall i | 0 <= i < |dead| ensures dead[i] in d.locations { DoomedAreDoomed(act, d.locations, leases, i); }
      OrphansSame(d.locations, c, dead, d.persistent);
    }
    if Deleted(dry, d, leases) == Deleted(act, d, leases) {
      PassListsFiles(dry, d, leases);
      PassListsFiles(act, d, leases);
      OrphansAreKeys(o.disk.locations, dry, o.disk.persistent);
      OrphansAreKeys(p.disk.locations, act, p.disk.persistent);
      PartsEqual(o.report.deleted, Orphans(o.disk.locations, dry, o.disk.persistent),
                 p.report.deleted, Orphans(p.disk.locations, act, p.disk.persistent));
      RealDistinct(act, d, leases);
    }
  }

  /** Two leases for the same file, one keyed by its id and one by its source, in the form in
      which the in-memory repository returns them: listed twice by the dry run, once by the real
      run.  The lease port takes any key; the upload and create paths use the FileSource, so that a
      lease keyed by file id comes from another caller of the port. */
  lemma DuplicateLeaseMisleads()
    ensures
      var c := Setup(true, 1, {}, r => true, 0);
      var d := Disk([Location(7, 8, Staging, Some(Ref(2, 3)))], {Ref(2, 3)}, []);
      var leases := [Lease(Some(7), None), Lease(Some(8), None)];
      Deleted(c, d, leases) == [OfFile(7), OfFile(7)] && Deleted(c.(dry := false), d, leases) == [OfFile(7)]
  {
    var c := Setup(true, 1, {}, r => true, 0);
    var act := c.(dry := false);
    var x := Location(7, 8, Staging, Some(Ref(2, 3)));
    var d := Disk([x], {Ref(2, 3)}, []);
    var a, b := Lease(Some(7), None), Lease(Some(8), None);
    var leases := [a, b];
    assert leases[..1] == [a] && [a][..0] == [];
    assert ById([x][1..], 8) == None && ById([x], 8) == None;
    assert Resolve([x], a) == Some(x) && Resolve([x], b) == Some(x);
    var start := Outcome(d, NOTHING);
    assert LeasePass(c, start, []) == start && LeasePass(act, start, []) == start;
    var first := Candidate(c, start, a);
    assert LeasePass(c, start, [a]) == first;
    assert first.disk == d && first.report.deleted == [OfFile(7)];
    var gone := Candidate(act, start, a);
    assert LeasePass(act, start, [a]) == gone;
    assert Without([x], 7) == Without([x][1..], 7) == [];
    assert gone.disk.locations == [] && gone.report.deleted == [OfFile(7)];
    assert LeasePass(c, start, leases) == Candidate(c, first, b);
    assert LeasePass(act, start, leases) == Candidate(act, gone, b);
  }
}
