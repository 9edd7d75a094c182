/**
  What the lease pass takes: exactly the locations that some claimed lease names, whose source has
  no ready record, with their objects.
*/
module GcLeases {
  import opened Base
  import opened GcTask
  import opened GcPreview

  /** The lease is for this file, by its id or by its key. */
  predicate Names(l: Lease, x: Location) {
    l.id == Some(x.id) || (if l.source.Some? then l.source else l.id) == Some(x.source)
  }

  predicate NamedBy(leases: seq<Lease>, x: Location) { exists i | 0 <= i < |leases| :: Names(leases[i], x) }

  /** No lease names two locations, and file ids are unique. */
  ghost predicate Coherent(leases: seq<Lease>, ls: seq<Location>) {
    && UniqueIds(ls)
    && forall i, x, y | 0 <= i < |leases| && x in ls && y in ls && Names(leases[i], x) && Names(leases[i], y) :: x == y
  }

  /** A run of this kind may delete the file: nothing registered it, it has an object whose removal
      works (a dry run tries none). */
  predicate Deletable(c: Setup, x: Location) {
    x.source !in c.ready && x.ref.Some? && (c.dry || c.works(x.ref.value))
  }

  predicate Taken(c: Setup, leases: seq<Lease>, x: Location) { Deletable(c, x) && NamedBy(leases, x) }

  lemma {:induction false} BySourceIs(ls: seq<Location>, source: nat)
    ensures match BySource(ls, source)
      case Some(x) => x in ls && x.source == source
      case None => forall x | x in ls :: x.source != source
    decreases |ls|
  {
    if ls != [] {
      BySourceIs(ls[1..], source);
      assert forall x | x in ls :: x == ls[0] || x in ls[1..];
    }
  }

  lemma {:induction false} ByIdIs(ls: seq<Location>, id: nat)
    ensures match ById(ls, id)
      case Some(x) => x in ls && x.id == id
      case None => forall x | x in ls :: x.id != id
    decreases |ls|
  {
    if ls != [] {
      ByIdIs(ls[1..], id);
      assert forall x | x in ls :: x == ls[0] || x in ls[1..];
    }
  }

  /** The lookup by id and then by key finds a location that the lease names, if there is one. */
  lemma ResolveNames(ls: seq<Location>, l: Lease)
    ensures match Resolve(ls, l)
      case Some(x) => x in ls && Names(l, x)
      case None => forall x | x in ls :: !Names(l, x)
  {
    if l.id.Some? { ByIdIs(ls, l.id.value); }
    if KeyOf(l).Some? { BySourceIs(ls, KeyOf(l).value); }
  }

  lemma {:induction false} DropIff(es: seq<Entry>, key: nat, e: Entry)
    ensures e in Drop(es, key) <==> e in es && e.key != key
    decreases |es|
  {
    if es != [] {
      var n := |es| - 1;
      DropIff(es[..n], key, e);
      assert es == es[..n] + [es[n]];
    }
  }

  lemma TakenMore(c: Setup, leases: seq<Lease>, l: Lease, x: Location)
    ensures Taken(c, leases + [l], x) <==> Taken(c, leases, x) || (Deletable(c, x) && Names(l, x))
  {
    var all := leases + [l];
    assert all[|leases|] == l;
    if i :| 0 <= i < |leases| && Names(leases[i], x) { assert Names(all[i], x); }
    if i :| 0 <= i < |all| && Names(all[i], x) {
      if i < |leases| { assert Names(leases[i], x); }
    }
  }

  /** The locations that are left, and the files that were reported. */
  ghost predicate Takes(c: Setup, d: Disk, leases: seq<Lease>, o: Outcome) {
    && (forall x | x in o.disk.locations :: x in d.locations)
    && (forall x | x in d.locations :: x !in o.disk.locations <==> !c.dry && Taken(c, leases, x))
    && (forall x | x in d.locations :: OfFile(x.id) in o.report.deleted <==> Taken(c, leases, x))
  }

  /** Nothing but y can be newly taken by a lease that resolves to y. */
  lemma OnlyNamed(c: Setup, leases: seq<Lease>, l: Lease, ls: seq<Location>, y: Location, x: Location)
    requires Coherent(leases + [l], ls) && y in ls && x in ls && Names(l, y) && x != y
    ensures Taken(c, leases + [l], x) <==> Taken(c, leases, x)
    ensures x.id != y.id
  {
    TakenMore(c, leases, l, x);
    assert (leases + [l])[|leases|] == l;
  }

  lemma OneTakes(c: Setup, d: Disk, leases: seq<Lease>, l: Lease, o: Outcome)
    requires Coherent(leases + [l], d.locations) && Takes(c, d, leases, o)
    ensures Takes(c, d, leases + [l], Candidate(c, o, l))
  {
    var r, p := Resolve(o.disk.locations, l), Candidate(c, o, l);
    ResolveNames(o.disk.locations, l);
    forall x | x in d.locations
      ensures x !in p.disk.locations <==> !c.dry && Taken(c, leases + [l], x)
      ensures OfFile(x.id) in p.report.deleted <==> Taken(c, leases + [l], x)
    {
      TakenMore(c, leases, l, x);
      if r.Some? {
        WithoutGone(o.disk.locations, r.value.id, x);
        if x != r.value { OnlyNamed(c, leases, l, d.locations, r.value, x); }
      }
    }
    forall x | x in p.disk.locations ensures x in d.locations {
      if r.Some? { WithoutGone(o.disk.locations, r.value.id, x); }
    }
  }

  lemma CoherentHead(leases: seq<Lease>, ls: seq<Location>)
    requires Coherent(leases, ls) && leases != []
    ensures Coherent(leases[..|leases| - 1], ls) && leases == leases[..|leases| - 1] + [leases[|leases| - 1]]
  {}

  /** The pass reports the deletable files that a lease names and, unless it is a dry run, drops
      exactly their locations. */
  lemma {:induction false} LeasePassIff(c: Setup, d: Disk, leases: seq<Lease>)
    requires Coherent(leases, d.locations)
    ensures var o := LeasePass(c, Outcome(d, NOTHING), leases);
      && (forall x | x in o.disk.locations :: x in d.locations)
      && (forall x | x in d.locations :: x !in o.disk.locations <==>
            && !c.dry && x.source !in c.ready && x.ref.Some? && c.works(x.ref.value)
            && exists i | 0 <= i < |leases| :: Names(leases[i], x))
      && (forall x | x in d.locations :: OfFile(x.id) in o.report.deleted <==>
            && x.source !in c.ready && x.ref.Some? && (c.dry || c.works(x.ref.value))
            && exists i | 0 <= i < |leases| :: Names(leases[i], x))
    decreases |leases|
  {
    LeasePassTakes(c, d, leases);
    forall x | x in d.locations
      ensures Taken(c, leases, x) <==>
        && x.source !in c.ready && x.ref.Some? && (c.dry || c.works(x.ref.value))
        && exists i | 0 <= i < |leases| :: Names(leases[i], x)
    {}
  }

  lemma {:induction false} LeasePassTakes(c: Setup, d: Disk, leases: seq<Lease>)
    requires Coherent(leases, d.locations)
    ensures Takes(c, d, leases, LeasePass(c, Outcome(d, NOTHING), leases))
    decreases |leases|
  {
    if leases != [] {
      var n := |leases| - 1;
      CoherentHead(leases, d.locations);
      LeasePassTakes(c, d, leases[..n]);
      OneTakes(c, d, leases[..n], leases[n], LeasePass(c, Outcome(d, NOTHING), leases[..n]));
    }
  }

  // ---------------------------------------------------------------------------
  //  Objects
  // ---------------------------------------------------------------------------

  /** A location in that zone that refers to r is taken. */
  predicate Lost(c: Setup, ls: seq<Location>, leases: seq<Lease>, zone: Zone, r: Ref) {
    exists x :: x in ls && x.zone == zone && x.ref == Some(r) && Taken(c, leases, x)
  }

  lemma {:induction false} TakenLater(c: Setup, ls: seq<Location>, leases: seq<Lease>, l: Lease, zone: Zone, r: Ref)
    requires Lost(c, ls, leases, zone, r)
    ensures Lost(c, ls, leases + [l], zone, r)
  {
    var x :| x in ls && x.zone == zone && x.ref == Some(r) && Taken(c, leases, x);
    TakenMore(c, leases, l, x);
  }

  ghost predicate Empties(c: Setup, d: Disk, leases: seq<Lease>, o: Outcome) {
    && (forall r: Ref :: r in o.disk.staging <==> r in d.staging && !Lost(c, d.locations, leases, Staging, r))
    && (forall e: Entry :: e in o.disk.persistent <==>
          e in d.persistent && !Lost(c, d.locations, leases, Persistent, Ref(c.container, e.key)))
  }

  /** A lease that takes nothing new loses nothing new. */
  lemma LostSame(c: Setup, ls: seq<Location>, leases: seq<Lease>, l: Lease, zone: Zone, r: Ref)
    requires forall x | x in ls && x.zone == zone && x.ref == Some(r) ::
      Taken(c, leases + [l], x) ==> Taken(c, leases, x)
    ensures Lost(c, ls, leases + [l], zone, r) <==> Lost(c, ls, leases, zone, r)
  {
    if Lost(c, ls, leases, zone, r) { TakenLater(c, ls, leases, l, zone, r); }
  }

  /** A resolved lease loses the object of its location and no other. */
  lemma LostMore(c: Setup, ls: seq<Location>, leases: seq<Lease>, l: Lease, y: Location, zone: Zone, r: Ref)
    requires Coherent(leases + [l], ls) && y in ls && Names(l, y)
    ensures Lost(c, ls, leases + [l], zone, r) <==>
      Lost(c, ls, leases, zone, r) || (Deletable(c, y) && y.zone == zone && y.ref == Some(r))
  {
    TakenMore(c, leases, l, y);
    if Deletable(c, y) && y.zone == zone && y.ref == Some(r) {
      assert Taken(c, leases + [l], y);
    } else {
      forall x | x in ls && x.zone == zone && x.ref == Some(r) && Taken(c, leases + [l], x) ensures Taken(c, leases, x) {
        if x != y { OnlyNamed(c, leases, l, ls, y, x); }
      }
      LostSame(c, ls, leases, l, zone, r);
    }
  }

  lemma OneEmpties(c: Setup, d: Disk, leases: seq<Lease>, l: Lease, o: Outcome, y: Location)
    requires !c.dry && Coherent(leases + [l], d.locations) && Empties(c, d, leases, o) && y in d.locations && Names(l, y)
    requires Resolve(o.disk.locations, l) == Some(y)
    ensures Empties(c, d, leases + [l], Candidate(c, o, l))
  {
    var p := Candidate(c, o, l);
    forall r: Ref ensures r in p.disk.staging <==> r in d.staging && !Lost(c, d.locations, leases + [l], Staging, r) {
      LostMore(c, d.locations, leases, l, y, Staging, r);
    }
    forall e: Entry ensures e in p.disk.persistent <==>
      e in d.persistent && !Lost(c, d.locations, leases + [l], Persistent, Ref(c.container, e.key))
    {
      LostMore(c, d.locations, leases, l, y, Persistent, Ref(c.container, e.key));
      if y.ref.Some? { DropIff(o.disk.persistent, y.ref.value.key, e); }
    }
  }

  lemma NoneEmpties(c: Setup, d: Disk, leases: seq<Lease>, l: Lease, o: Outcome)
    requires !c.dry && Takes(c, d, leases, o) && Empties(c, d, leases, o)
    requires Resolve(o.disk.locations, l).None?
    ensures Empties(c, d, leases + [l], Candidate(c, o, l))
  {
    ResolveNames(o.disk.locations, l);
    forall zone: Zone, r: Ref
      ensures Lost(c, d.locations, leases + [l], zone, r) <==> Lost(c, d.locations, leases, zone, r)
    {
      forall x | x in d.locations && Taken(c, leases + [l], x) ensures Taken(c, leases, x) {
        TakenMore(c, leases, l, x);
      }
      LostSame(c, d.locations, leases, l, zone, r);
    }
  }

  lemma {:induction false} PassEmpties(c: Setup, d: Disk, leases: seq<Lease>)
    requires !c.dry && Coherent(leases, d.locations)
    ensures Empties(c, d, leases, LeasePass(c, Outcome(d, NOTHING), leases))
    decreases |leases|
  {
    if leases != [] {
      var n := |leases| - 1;
      var o := LeasePass(c, Outcome(d, NOTHING), leases[..n]);
      CoherentHead(leases, d.locations);
      PassEmpties(c, d, leases[..n]);
      LeasePassTakes(c, d, leases[..n]);
      ResolveNames(o.disk.locations, leases[n]);
      if Resolve(o.disk.locations, leases[n]).None? {
        NoneEmpties(c, d, leases[..n], leases[n], o);
      } else {
        OneEmpties(c, d, leases[..n], leases[n], o, Resolve(o.disk.locations, leases[n]).value);
      }
    } else {
      forall x | x in d.locations ensures !Taken(c, [], x) {}
    }
  }

  /** A real pass removes an object of a zone exactly if a location in that zone refers to it that
      has no ready record and that a lease names, and the removal works. */
  lemma LeasePassObjects(c: Setup, d: Disk, leases: seq<Lease>)
    requires !c.dry && Coherent(leases, d.locations)
    ensures var after := LeasePass(c, Outcome(d, NOTHING), leases).disk;
      && (forall r: Ref | r in d.staging :: r !in after.staging <==>
            && c.works(r)
            && exists x | x in d.locations && x.zone == Staging && x.ref == Some(r) && x.source !in c.ready ::
                 exists i | 0 <= i < |leases| :: Names(leases[i], x))
      && (forall e | e in d.persistent :: e !in after.persistent <==>
            && c.works(Ref(c.container, e.key))
            && exists x | x in d.locations && x.zone == Persistent && x.ref == Some(Ref(c.container, e.key))
                          && x.source !in c.ready ::
                 exists i | 0 <= i < |leases| :: Names(leases[i], x))
      && after.staging <= d.staging && forall e | e in after.persistent :: e in d.persistent
  {
    PassEmpties(c, d, leases);
    forall zone: Zone, r: Ref
      ensures Lost(c, d.locations, leases, zone, r) <==>
        && c.works(r)
        && exists x | x in d.locations && x.zone == zone && x.ref == Some(r) && x.source !in c.ready ::
             exists i | 0 <= i < |leases| :: Names(leases[i], x)
    {
      LostIs(c, d.locations, leases, zone, r);
    }
  }

  lemma LostIs(c: Setup, ls: seq<Location>, leases: seq<Lease>, zone: Zone, r: Ref)
    requires !c.dry
    ensures Lost(c, ls, leases, zone, r) <==>
      && c.works(r)
      && exists x | x in ls && x.zone == zone && x.ref == Some(r) && x.source !in c.ready ::
           exists i | 0 <= i < |leases| :: Names(leases[i], x)
  {
    if Lost(c, ls, leases, zone, r) {
      var x :| x in ls && x.zone == zone && x.ref == Some(r) && Taken(c, leases, x);
      assert x in ls && x.zone == zone && x.ref == Some(r) && x.source !in c.ready && NamedBy(leases, x);
    }
    if c.works(r) {
      if x :| x in ls && x.zone == zone && x.ref == Some(r) && x.source !in c.ready && NamedBy(leases, x) {
        assert Taken(c, leases, x);
      }
    }
  }
}
