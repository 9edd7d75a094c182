/**
  GcTask::Run as code: the lease loop, the offset paging of the location repository, the token
  paging of the object listing, deleting as it goes.
*/
module GcRun {
  import opened Base
  import opened GcTask
  import GcLeases
  import GcPaging

  predicate Ascending(es: seq<Entry>) { forall i, j | 0 <= i < j < |es| :: es[i].key < es[j].key }

  /** The listing from a continuation token on. */
  function Rest(es: seq<Entry>, token: int): seq<Entry> {
    if es == [] then [] else (if es[0].key > token then [es[0]] else []) + Rest(es[1..], token)
  }

  predicate UpTo(es: seq<Entry>, token: int) { forall i | 0 <= i < |es| :: es[i].key <= token }

  predicate Beyond(es: seq<Entry>, token: int) { forall i | 0 <= i < |es| :: es[i].key > token }

  lemma {:induction false} RestBeyond(es: seq<Entry>, token: int)
    requires Beyond(es, token)
    ensures Rest(es, token) == es
    decreases |es|
  {
    if es != [] { RestBeyond(es[1..], token); }
  }

  /** Deleting what was listed already does not disturb the rest of the listing. */
  lemma {:induction false} RestSplits(a: seq<Entry>, b: seq<Entry>, token: int)
    requires UpTo(a, token) && Beyond(b, token)
    ensures Rest(a + b, token) == b
    decreases |a|
  {
    if a == [] {
      assert a + b == b;
      RestBeyond(b, token);
    } else {
      RestSplits(a[1..], b, token);
      assert (a + b)[1..] == a[1..] + b;
      assert Rest(a + b, token) == [] + Rest(a[1..] + b, token);
    }
  }

  lemma {:induction false} KeptUpTo(ls: seq<Location>, c: Setup, es: seq<Entry>, token: int)
    requires UpTo(es, token)
    ensures UpTo(Kept(ls, c, es), token)
    decreases |es|
  {
    if es != [] { KeptUpTo(ls, c, es[..|es| - 1], token); }
  }

  lemma {:induction false} DropAbsent(es: seq<Entry>, key: nat)
    requires forall i | 0 <= i < |es| :: es[i].key != key
    ensures Drop(es, key) == es
    decreases |es|
  {
    if es != [] { DropAbsent(es[..|es| - 1], key); }
  }

  lemma {:induction false} DropSplits(a: seq<Entry>, b: seq<Entry>, key: nat)
    ensures Drop(a + b, key) == Drop(a, key) + Drop(b, key)
    decreases |b|
  {
    if b == [] {
      assert a + b == a;
    } else {
      var n := |b| - 1;
      DropSplits(a, b[..n], key);
      assert (a + b)[..|a + b| - 1] == a + b[..n];
    }
  }

  /** Removing the entry between what was kept and what is still to come. */
  lemma DropBetween(a: seq<Entry>, e: Entry, b: seq<Entry>)
    requires UpTo(a, e.key as int - 1) && Beyond(b, e.key)
    ensures Drop(a + [e] + b, e.key) == a + b
  {
    DropSplits(a + [e], b, e.key);
    DropSplits(a, [e], e.key);
    DropAbsent(a, e.key);
    DropAbsent(b, e.key);
    DropSelf(e);
    assert a + [] == a;
  }

  lemma DropSelf(e: Entry)
    ensures Drop([e], e.key) == []
  {
    assert Drop([e], e.key) == Drop([e][..0], e.key) + [];
  }

  lemma Visiting(kept: seq<Entry>, all: seq<Entry>, i: nat)
    requires i < |all|
    ensures kept + all[i..] == (kept + [all[i]]) + all[i + 1..]
    ensures kept + [] == kept
  {
    assert all[i..] == [all[i]] + all[i + 1..];
  }

  lemma Removing(kept: seq<Entry>, all: seq<Entry>, i: nat)
    requires i < |all| && Ascending(all) && UpTo(kept, all[i].key as int - 1)
    ensures Drop(kept + all[i..], all[i].key) == kept + all[i + 1..]
  {
    Visiting(kept, all, i);
    DropBetween(kept, all[i], all[i + 1..]);
  }

  /** The last key of a page is a good token. */
  lemma Advanced(all: seq<Entry>, i: nat, size: nat)
    requires Ascending(all) && size > 0 && i + size <= |all|
    ensures UpTo(all[..i + size], all[i + size - 1].key) && Beyond(all[i + size..], all[i + size - 1].key)
  {}

  lemma Stepped(ls: seq<Location>, c: Setup, es: seq<Entry>, i: nat)
    requires i < |es|
    ensures Kept(ls, c, es[..i + 1]) == Kept(ls, c, es[..i]) +
      if !c.dry && IsOrphan(ls, c, es[i]) && c.works(Ref(c.container, es[i].key)) then [] else [es[i]]
    ensures Orphans(ls, c, es[..i + 1]) == Orphans(ls, c, es[..i]) +
      if IsOrphan(ls, c, es[i]) && (c.dry || c.works(Ref(c.container, es[i].key))) then [OfKey(es[i].key)] else []
  {
    assert es[..i + 1][..i] == es[..i];
  }

  lemma AscendingHead(es: seq<Entry>)
    requires Ascending(es) && es != []
    ensures Ascending(es[..|es| - 1])
    ensures forall e | e in es[..|es| - 1] :: e.key < es[|es| - 1].key
  {}

  /** The keys reported are those of the listing. */
  lemma {:induction false} OrphanKeys(ls: seq<Location>, c: Setup, es: seq<Entry>, key: nat)
    requires OfKey(key) in Orphans(ls, c, es)
    ensures exists e :: e in es && e.key == key
    decreases |es|
  {
    var n := |es| - 1;
    if OfKey(key) in Orphans(ls, c, es[..n]) {
      OrphanKeys(ls, c, es[..n], key);
      var e :| e in es[..n] && e.key == key;
      assert e in es;
    } else {
      assert es[n] in es && es[n].key == key;
    }
  }

  lemma {:induction false} OrphanReported(ls: seq<Location>, c: Setup, es: seq<Entry>, k: nat)
    requires Ascending(es) && k < |es|
    ensures OfKey(es[k].key) in Orphans(ls, c, es) <==>
      es[k].mtime <= c.cutoff && (forall x | x in ls :: x.ref != Some(Ref(c.container, es[k].key)))
      && (c.dry || c.works(Ref(c.container, es[k].key)))
    decreases |es|
  {
    var n := |es| - 1;
    AscendingHead(es);
    Unreferenced(ls, c, es[k].key);
    if k < n {
      OrphanReported(ls, c, es[..n], k);
    } else if OfKey(es[n].key) in Orphans(ls, c, es[..n]) {
      OrphanKeys(ls, c, es[..n], es[n].key);
    }
  }

  lemma Unreferenced(ls: seq<Location>, c: Setup, key: nat)
    ensures !Referenced(ls, c, key) <==> forall x | x in ls :: x.ref != Some(Ref(c.container, key))
  {}

  lemma {:induction false} KeptFrom(ls: seq<Location>, c: Setup, es: seq<Entry>, e: Entry)
    requires e in Kept(ls, c, es)
    ensures e in es
    decreases |es|
  {
    if e in Kept(ls, c, es[..|es| - 1]) { KeptFrom(ls, c, es[..|es| - 1], e); }
  }

  lemma {:induction false} OrphanRemoved(ls: seq<Location>, c: Setup, es: seq<Entry>, k: nat)
    requires Ascending(es) && k < |es|
    ensures es[k] !in Kept(ls, c, es) <==>
      !c.dry && es[k].mtime <= c.cutoff && (forall x | x in ls :: x.ref != Some(Ref(c.container, es[k].key)))
      && c.works(Ref(c.container, es[k].key))
    decreases |es|
  {
    var n := |es| - 1;
    AscendingHead(es);
    Unreferenced(ls, c, es[k].key);
    if k < n {
      OrphanRemoved(ls, c, es[..n], k);
      assert es[k] in es[..n];
    } else if es[n] in Kept(ls, c, es[..n]) {
      KeptFrom(ls, c, es[..n], es[n]);
    }
  }

  lemma AllReported(ls: seq<Location>, c: Setup, es: seq<Entry>)
    requires Ascending(es)
    ensures forall k | 0 <= k < |es| ::
      OfKey(es[k].key) in Orphans(ls, c, es) <==>
        && es[k].mtime <= c.cutoff
        && (forall x | x in ls :: x.ref != Some(Ref(c.container, es[k].key)))
        && (c.dry || c.works(Ref(c.container, es[k].key)))
  {
    forall k | 0 <= k < |es|
      ensures OfKey(es[k].key) in Orphans(ls, c, es) <==>
        && es[k].mtime <= c.cutoff
        && (forall x | x in ls :: x.ref != Some(Ref(c.container, es[k].key)))
        && (c.dry || c.works(Ref(c.container, es[k].key)))
    {
      OrphanReported(ls, c, es, k);
    }
  }

  lemma AllRemoved(ls: seq<Location>, c: Setup, es: seq<Entry>)
    requires Ascending(es)
    ensures forall k | 0 <= k < |es| ::
      es[k] !in Kept(ls, c, es) <==>
        && !c.dry && es[k].mtime <= c.cutoff
        && (forall x | x in ls :: x.ref != Some(Ref(c.container, es[k].key)))
        && c.works(Ref(c.container, es[k].key))
  {
    forall k | 0 <= k < |es|
      ensures es[k] !in Kept(ls, c, es) <==>
        && !c.dry && es[k].mtime <= c.cutoff
        && (forall x | x in ls :: x.ref != Some(Ref(c.container, es[k].key)))
        && c.works(Ref(c.container, es[k].key))
    {
      OrphanRemoved(ls, c, es, k);
    }
  }

  lemma {:induction false} DropAscends(es: seq<Entry>, key: nat)
    requires Ascending(es)
    ensures Ascending(Drop(es, key)) && forall e | e in Drop(es, key) :: e in es
    decreases |es|
  {
    if es != [] {
      var n := |es| - 1;
      DropAscends(es[..n], key);
      assert forall e | e in es[..n] :: e.key < es[n].key;
    }
  }

  lemma {:induction false} PassAscends(c: Setup, o: Outcome, leases: seq<Lease>)
    requires Ascending(o.disk.persistent)
    ensures Ascending(LeasePass(c, o, leases).disk.persistent)
    decreases |leases|
  {
    if leases != [] {
      var n := |leases| - 1;
      PassAscends(c, o, leases[..n]);
      var x := Resolve(LeasePass(c, o, leases[..n]).disk.locations, leases[n]);
      if x.Some? && x.value.ref.Some? {
        DropAscends(LeasePass(c, o, leases[..n]).disk.persistent, x.value.ref.value.key);
      }
    }
  }

  lemma {:induction false} DryKeeps(c: Setup, o: Outcome, leases: seq<Lease>)
    requires c.dry
    ensures LeasePass(c, o, leases).disk == o.disk
    decreases |leases|
  {
    if leases != [] { DryKeeps(c, o, leases[..|leases| - 1]); }
  }

  lemma {:induction false} DryKeepsAll(ls: seq<Location>, c: Setup, es: seq<Entry>)
    requires c.dry
    ensures Kept(ls, c, es) == es
    decreases |es|
  {
    if es != [] { DryKeepsAll(ls, c, es[..|es| - 1]); }
  }

  /** Locations per page request. */
  const PAGE: nat := 500

  class Task {
    const setup: Setup
    /** Sizes of the pages that listings return. */
    const pages: nat -> nat
    var disk: Disk
    var report: Report

    constructor (setup: Setup, pages: nat -> nat, disk: Disk)
      ensures this.setup == setup && this.pages == pages && this.disk == disk && report == NOTHING
    {
      this.setup, this.pages, this.disk, report := setup, pages, disk, NOTHING;
    }

    /** One claimed lease after the other. */
    method CollectExpiredLeases(leases: seq<Lease>)
      modifies this
      ensures Outcome(disk, report) == LeasePass(setup, old(Outcome(disk, report)), leases)
    {
      ghost var start := Outcome(disk, report);
      var i := 0;
      while i < |leases|
        invariant 0 <= i <= |leases|
        invariant Outcome(disk, report) == LeasePass(setup, start, leases[..i])
      {
        assert leases[..i + 1][..i] == leases[..i];
        CollectOne(leases[i]);
        i := i + 1;
      }
      assert leases[..i] == leases;
    }

    method CollectOne(l: Lease)
      modifies this
      ensures Outcome(disk, report) == Candidate(setup, old(Outcome(disk, report)), l)
    {
      var x := Resolve(disk.locations, l);
      if x.None? {
        report := report.(noLocation := report.noLocation + 1);
      } else if x.value.source in setup.ready {
        report := report.(hasRecord := report.hasRecord + 1);
      } else if x.value.ref.None? {
        report := report.(errors := report.errors + 1);
      } else {
        DeleteCandidate(x.value);
      }
    }

    method DeleteCandidate(x: Location)
      requires x.ref.Some?
      modifies this
      ensures Outcome(disk, report) == DeleteFile(setup, old(Outcome(disk, report)), x)
    {
      if setup.dry {
        report := report.(deleted := report.deleted + [OfFile(x.id)]);
        return;
      }
      if !setup.works(x.ref.value) {
        report := report.(errors := report.errors + 1);
        return;
      }
      disk := RemoveObject(disk, setup, x.zone, x.ref.value);
      report := report.(deleted := report.deleted + [OfFile(x.id)]);
      disk := disk.(locations := Without(disk.locations, x.id));
      report := report.(deletedLocations := report.deletedLocations + 1);
    }

    method CollectRefs(page: seq<Location>) returns (refs: set<Ref>)
      ensures refs == GcPaging.RefsOf(page)
    {
      refs := {};
      var k := 0;
      while k < |page|
        invariant 0 <= k <= |page| && refs == GcPaging.RefsOf(page[..k])
      {
        GcPaging.RefsSnoc(page[..k], page[k]);
        assert page[..k + 1] == page[..k] + [page[k]];
        if page[k].ref.Some? { refs := refs + {page[k].ref.value}; }
        k := k + 1;
      }
      assert page[..k] == page;
    }

    /** One page request; `end` is the next offset. */
    method OneLocationPage(view: seq<Location>, coming: seq<GcPaging.Change>, offset: nat, refs: set<Ref>, ghost all: set<Ref>)
      returns (sum: set<Ref>, more: bool, end: nat)
      requires GcPaging.Owed(all, refs, view, coming, PAGE, offset)
      ensures end == GcPaging.End(view, PAGE, offset) && more == GcPaging.GoesOn(view, PAGE, offset)
      ensures !more ==> sum == all
      ensures more ==> GcPaging.Owed(all, sum, GcPaging.NextView(view, coming), GcPaging.Rest(coming), PAGE, end)
    {
      var page := GcPaging.Page(view, PAGE, offset);
      var found := CollectRefs(page);
      GcPaging.OwedLess(all, refs, view, coming, PAGE, offset);
      sum, end := refs + found, offset + |page|;
      more := page != [] && end < |view|;
    }

    /** Offset paging over the locations, which others change between the page requests. */
    method ReferencedRefs(changes: seq<GcPaging.Change>) returns (refs: set<Ref>)
      ensures refs == GcPaging.RefsOf(GcPaging.Listed(disk.locations, changes, PAGE, 0))
    {
      refs := {};
      var view, coming := disk.locations, changes;
      var offset: nat := 0;
      var more := true;
      ghost var all := GcPaging.RefsOf(GcPaging.Listed(view, coming, PAGE, 0));
      while more
        invariant if more then GcPaging.Owed(all, refs, view, coming, PAGE, offset) else refs == all
        decreases more, |coming|, Max(0, |view| - offset)
      {
        var end;
        refs, more, end := OneLocationPage(view, coming, offset, refs, all);
        if more { view, coming, offset := GcPaging.NextView(view, coming), GcPaging.Rest(coming), end; }
      }
    }

    /** The listing after the first i entries of `all` have been visited. */
    ghost predicate Visited(ls: seq<Location>, all: seq<Entry>, i: nat, before: Disk, told: seq<Id>)
      reads this
    {
      && i <= |all| && Ascending(all)
      && disk == before.(persistent := Kept(ls, setup, all[..i]) + all[i..])
      && report.deleted == told + Orphans(ls, setup, all[..i])
    }

    method VisitEntry(e: Entry, refs: set<Ref>, ghost ls: seq<Location>, ghost all: seq<Entry>, ghost i: nat,
                      ghost before: Disk, ghost told: seq<Id>)
      requires Visited(ls, all, i, before, told) && i < |all| && all[i] == e
      requires Referenced(ls, setup, e.key) <==> Ref(setup.container, e.key) in refs
      modifies this
      ensures Visited(ls, all, i + 1, before, told)
    {
      Stepped(ls, setup, all, i);
      Visiting(Kept(ls, setup, all[..i]), all, i);
      var r := Ref(setup.container, e.key);
      if r in refs { return; }
      if e.mtime > setup.cutoff {
        report := report.(tooYoung := report.tooYoung + 1);
        return;
      }
      if !setup.dry {
        if !setup.works(r) {
          report := report.(errors := report.errors + 1);
          return;
        }
        KeptUpTo(ls, setup, all[..i], e.key as int - 1);
        Removing(Kept(ls, setup, all[..i]), all, i);
        disk := disk.(persistent := Drop(disk.persistent, e.key));
      }
      report := report.(deleted := report.deleted + [OfKey(e.key)]);
    }

    /** The next page of the listing: the entries beyond the token, at most 500. */
    method NextPage(token: int, n: nat, ghost ls: seq<Location>, ghost all: seq<Entry>, ghost i: nat,
                    ghost before: Disk, ghost told: seq<Id>)
      returns (page: seq<Entry>, more: bool)
      requires Visited(ls, all, i, before, told)
      requires UpTo(all[..i], token) && Beyond(all[i..], token)
      ensures i + |page| <= |all| && page == all[i..i + |page|]
      ensures more <==> i + |page| < |all|
      ensures more ==> page != []
    {
      KeptUpTo(ls, setup, all[..i], token);
      RestSplits(Kept(ls, setup, all[..i]), all[i..], token);
      var rest := Rest(disk.persistent, token);
      var size := Min(Max(1, Min(pages(n), 500)), |rest|);
      page := rest[..size];
      more := size < |rest|;
    }

    method VisitPage(page: seq<Entry>, refs: set<Ref>, ghost ls: seq<Location>, ghost all: seq<Entry>, ghost i: nat,
                     ghost before: Disk, ghost told: seq<Id>)
      requires Visited(ls, all, i, before, told) && i + |page| <= |all| && page == all[i..i + |page|]
      requires forall key: nat :: Referenced(ls, setup, key) <==> Ref(setup.container, key) in refs
      modifies this
      ensures Visited(ls, all, i + |page|, before, told)
    {
      var k := 0;
      while k < |page|
        invariant 0 <= k <= |page| && Visited(ls, all, i + k, before, told)
      {
        VisitEntry(page[k], refs, ls, all, i + k, before, told);
        k := k + 1;
      }
    }

    /** Visited, and the token separates the visited entries from the others. */
    ghost predicate AtToken(token: int, ls: seq<Location>, all: seq<Entry>, i: nat, before: Disk, told: seq<Id>)
      reads this
    {
      Visited(ls, all, i, before, told) && UpTo(all[..i], token) && Beyond(all[i..], token)
    }

    method OnePage(token: int, n: nat, refs: set<Ref>, ghost ls: seq<Location>, ghost all: seq<Entry>, ghost i: nat,
                   ghost before: Disk, ghost told: seq<Id>)
      returns (next: int, more: bool, ghost j: nat)
      requires AtToken(token, ls, all, i, before, told)
      requires forall key: nat :: Referenced(ls, setup, key) <==> Ref(setup.container, key) in refs
      modifies this
      ensures i <= j <= |all| && AtToken(next, ls, all, j, before, told)
      ensures if more then i < j else j == |all|
    {
      var page;
      page, more := NextPage(token, n, ls, all, i, before, told);
      VisitPage(page, refs, ls, all, i, before, told);
      next := token;
      j := i + |page|;
      if page != [] {
        next := page[|page| - 1].key;
        Advanced(all, i, |page|);
      }
    }

    /** The do-while loop over the pages; `ls` are the locations behind the references. */
    method Sweep(refs: set<Ref>, ghost ls: seq<Location>)
      requires Ascending(disk.persistent)
      requires forall key: nat :: Referenced(ls, setup, key) <==> Ref(setup.container, key) in refs
      modifies this
      ensures Visited(ls, old(disk.persistent), |old(disk.persistent)|, old(disk), old(report.deleted))
    {
      ghost var before, told, all := disk, report.deleted, disk.persistent;
      assert AtToken(-1, ls, all, 0, before, told) by {
        assert all[..0] == [] && all[0..] == all && told + [] == told && [] + all == all;
      }
      var token: int := -1;
      var n: nat := 0;
      var more := true;
      ghost var i: nat := 0;
      while more
        invariant i <= |all| && AtToken(token, ls, all, i, before, told) && (!more ==> i == |all|)
        decreases more, |all| - i
      {
        token, more, i := OnePage(token, n, refs, ls, all, i, before, told);
        n := n + 1;
      }
    }

    /** Token paging over the persistent container, deleting while listing.  The references are
        those of the locations that the paging over them gets to see while others change them. */
    method SweepOrphans(changes: seq<GcPaging.Change>)
      requires Ascending(disk.persistent)
      modifies this
      ensures var seen := GcPaging.Listed(old(disk.locations), changes, PAGE, 0);
        && report.deleted == old(report.deleted) + Orphans(seen, setup, old(disk.persistent))
        && disk == old(disk).(locations := GcPaging.AfterAll(old(disk.locations), changes),
                              persistent := Kept(seen, setup, old(disk.persistent)))
    {
      var refs := ReferencedRefs(changes);
      ghost var seen, all := GcPaging.Listed(disk.locations, changes, PAGE, 0), disk.persistent;
      Sweep(refs, seen);
      assert all[..|all|] == all && all[|all|..] == [];
      assert Kept(seen, setup, all) + [] == Kept(seen, setup, all);
      disk := disk.(locations := GcPaging.AfterAll(disk.locations, changes));
    }

    /** An entry of the listing is reported exactly if it is not younger than the cutoff, no
        location that the paging saw refers to it, and (in a real run) its removal works; a real
        run removes exactly these. */
    method CollectOrphanObjects(changes: seq<GcPaging.Change>)
      requires Ascending(disk.persistent)
      modifies this
      ensures var seen := GcPaging.Listed(old(disk.locations), changes, PAGE, 0);
        && report.deleted == old(report.deleted) + Orphans(seen, setup, old(disk.persistent))
        && disk == old(disk).(locations := GcPaging.AfterAll(old(disk.locations), changes),
                              persistent := Kept(seen, setup, old(disk.persistent)))
      ensures |old(report.deleted)| <= |report.deleted|
      ensures forall k | 0 <= k < |old(disk.persistent)| :: var e := old(disk.persistent)[k];
        OfKey(e.key) in report.deleted[|old(report.deleted)|..] <==>
          && e.mtime <= setup.cutoff
          && (forall x | x in GcPaging.Listed(old(disk.locations), changes, PAGE, 0) ::
                x.ref != Some(Ref(setup.container, e.key)))
          && (setup.dry || setup.works(Ref(setup.container, e.key)))
      ensures forall k | 0 <= k < |old(disk.persistent)| :: var e := old(disk.persistent)[k];
        e !in disk.persistent <==>
          && !setup.dry && e.mtime <= setup.cutoff
          && (forall x | x in GcPaging.Listed(old(disk.locations), changes, PAGE, 0) ::
                x.ref != Some(Ref(setup.container, e.key)))
          && setup.works(Ref(setup.container, e.key))
      ensures forall e | e in disk.persistent :: e in old(disk.persistent)
    {
      ghost var seen, all, told := GcPaging.Listed(disk.locations, changes, PAGE, 0), disk.persistent, report.deleted;
      SweepOrphans(changes);
      assert report.deleted[|told|..] == Orphans(seen, setup, all);
      AllReported(seen, setup, all);
      AllRemoved(seen, setup, all);
      forall e | e in disk.persistent ensures e in all { KeptFrom(seen, setup, all, e); }
    }

    /** A whole run, with others changing the locations during its orphan pass.  A dry run changes
        neither objects nor locations itself.  A persistent object younger than the cutoff goes
        exactly if a lease names a location for it whose source has no ready record. */
    method Run(leases: seq<Lease>, changes: seq<GcPaging.Change>)
      requires report == NOTHING && Ascending(disk.persistent)
      modifies this
      ensures var o := LeasePass(setup, Outcome(old(disk), NOTHING), leases);
        report.deleted == o.report.deleted +
          Orphans(GcPaging.Listed(o.disk.locations, changes, PAGE, 0), setup, o.disk.persistent)
      ensures changes == [] ==> report.deleted == Deleted(setup, old(disk), leases)
      ensures GcLeases.Coherent(leases, old(disk.locations)) ==>
        forall e | e in old(disk.persistent) && e.mtime > setup.cutoff :: e !in disk.persistent <==>
          && !setup.dry && setup.works(Ref(setup.container, e.key))
          && exists x | x in old(disk.locations) && x.zone == Persistent && x.ref == Some(Ref(setup.container, e.key))
                        && x.source !in setup.ready ::
               exists i | 0 <= i < |leases| :: GcLeases.Names(leases[i], x)
      ensures setup.dry ==> disk == old(disk).(locations := GcPaging.AfterAll(old(disk.locations), changes))
    {
      ghost var start := disk;
      CollectExpiredLeases(leases);
      PassAscends(setup, Outcome(start, NOTHING), leases);
      ghost var o := LeasePass(setup, Outcome(start, NOTHING), leases);
      if setup.dry { DryKeeps(setup, Outcome(start, NOTHING), leases); }
      CollectOrphanObjects(changes);
      if GcLeases.Coherent(leases, start.locations) && !setup.dry { GcLeases.LeasePassObjects(setup, start, leases); }
      if setup.dry { DryKeepsAll(GcPaging.Listed(start.locations, changes, PAGE, 0), setup, start.persistent); }
      if changes == [] {
        GcPaging.AtRestListsAll(o.disk.locations, PAGE, 0);
        assert o.disk.locations[0..] == o.disk.locations;
      }
    }
  }
}
