/**
  One garbage collection run of one partition: the expired-lease pass, then the orphan pass over
  the paged listing of the persistent container.  Names (file ids, sources, keys) are numbers;
  a larger key comes later in a listing.
*/
module GcTask {
  import opened Base

  datatype Zone = Staging | Persistent

  datatype Ref = Ref(container: nat, key: nat)

  /** A location; ref is None if it lacks its physical reference. */
  datatype Location = Location(id: nat, source: nat, zone: Zone, ref: Option<Ref>)

  /** A claimed lease; empty fields are None. */
  datatype Lease = Lease(id: Option<nat>, source: Option<nat>)

  datatype Entry = Entry(key: nat, mtime: int)

  /** The repositories and stores of the partition. */
  datatype Disk = Disk(locations: seq<Location>, staging: set<Ref>, persistent: seq<Entry>)

  /** What a run reports as deleted: a file id, or the key of an orphan. */
  datatype Id = OfFile(id: nat) | OfKey(key: nat)

  datatype Report = Report(
    deleted: seq<Id>, deletedLocations: nat, hasRecord: nat, noLocation: nat, tooYoung: nat, errors: nat)

  const NOTHING := Report([], 0, 0, 0, 0, 0)

  /** The mode, the persistent container, the sources with a ready record, which removals
      succeed, and the orphan cutoff. */
  datatype Setup = Setup(dry: bool, container: nat, ready: set<nat>, works: Ref -> bool, cutoff: int)

  datatype Outcome = Outcome(disk: Disk, report: Report)

  // ---------------------------------------------------------------------------
  //  What one candidate does
  // ---------------------------------------------------------------------------

  function ById(ls: seq<Location>, id: nat): Option<Location> {
    if ls == [] then None else if ls[0].id == id then Some(ls[0]) else ById(ls[1..], id)
  }

  function BySource(ls: seq<Location>, source: nat): Option<Location> {
    if ls == [] then None else if ls[0].source == source then Some(ls[0]) else BySource(ls[1..], source)
  }

  function KeyOf(l: Lease): Option<nat> { if l.source.Some? then l.source else l.id }

  /** By file id first, then by the lease key. */
  function Resolve(ls: seq<Location>, l: Lease): Option<Location> {
    var byId := if l.id.Some? then ById(ls, l.id.value) else None;
    if byId.Some? then byId
    else if KeyOf(l).Some? then BySource(ls, KeyOf(l).value) else None
  }

  function Without(ls: seq<Location>, id: nat): seq<Location> {
    if ls == [] then [] else (if ls[0].id == id then [] else [ls[0]]) + Without(ls[1..], id)
  }

  function Drop(es: seq<Entry>, key: nat): seq<Entry> {
    if es == [] then [] else Drop(es[..|es| - 1], key) + if es[|es| - 1].key == key then [] else [es[|es| - 1]]
  }

  function RemoveObject(d: Disk, c: Setup, zone: Zone, r: Ref): Disk {
    if zone == Staging then d.(staging := d.staging - {r})
    else if r.container == c.container then d.(persistent := Drop(d.persistent, r.key))
    else d
  }

  /** DeleteCandidate with delete_location = true. */
  function DeleteFile(c: Setup, o: Outcome, x: Location): Outcome
    requires x.ref.Some?
  {
    if c.dry then o.(report := o.report.(deleted := o.report.deleted + [OfFile(x.id)]))
    else if !c.works(x.ref.value) then o.(report := o.report.(errors := o.report.errors + 1))
    else
      var d := RemoveObject(o.disk, c, x.zone, x.ref.value);
      Outcome(d.(locations := Without(d.locations, x.id)),
              o.report.(deleted := o.report.deleted + [OfFile(x.id)],
                        deletedLocations := o.report.deletedLocations + 1))
  }

  function Candidate(c: Setup, o: Outcome, l: Lease): Outcome {
    var x := Resolve(o.disk.locations, l);
    if x.None? then o.(report := o.report.(noLocation := o.report.noLocation + 1))
    else if x.value.source in c.ready then o.(report := o.report.(hasRecord := o.report.hasRecord + 1))
    else if x.value.ref.None? then o.(report := o.report.(errors := o.report.errors + 1))
    else DeleteFile(c, o, x.value)
  }

  function LeasePass(c: Setup, o: Outcome, leases: seq<Lease>): Outcome {
    if leases == [] then o else Candidate(c, LeasePass(c, o, leases[..|leases| - 1]), leases[|leases| - 1])
  }

  // ---------------------------------------------------------------------------
  //  Orphans
  // ---------------------------------------------------------------------------

  /** Does some location refer to the key in the persistent container? */
  predicate Referenced(ls: seq<Location>, c: Setup, key: nat) {
    exists i | 0 <= i < |ls| :: ls[i].ref == Some(Ref(c.container, key))
  }

  predicate IsOrphan(ls: seq<Location>, c: Setup, e: Entry) {
    !Referenced(ls, c, e.key) && e.mtime <= c.cutoff
  }

  /** The orphans that a run reports, in listing order. */
  function Orphans(ls: seq<Location>, c: Setup, es: seq<Entry>): seq<Id> {
    if es == [] then []
    else
      var e := es[|es| - 1];
      Orphans(ls, c, es[..|es| - 1]) +
      if IsOrphan(ls, c, e) && (c.dry || c.works(Ref(c.container, e.key))) then [OfKey(e.key)] else []
  }

  /** What a real run leaves of the listing. */
  function Kept(ls: seq<Location>, c: Setup, es: seq<Entry>): seq<Entry> {
    if es == [] then []
    else
      var e := es[|es| - 1];
      Kept(ls, c, es[..|es| - 1]) +
      if !c.dry && IsOrphan(ls, c, e) && c.works(Ref(c.container, e.key)) then [] else [e]
  }

  /** The file ids and keys a whole run reports. */
  function Deleted(c: Setup, d: Disk, leases: seq<Lease>): seq<Id> {
    var o := LeasePass(c, Outcome(d, NOTHING), leases);
    o.report.deleted + Orphans(o.disk.locations, c, o.disk.persistent)
  }
}
