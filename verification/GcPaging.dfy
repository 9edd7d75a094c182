/**
  Offset paging over a repository that changes between page requests.  Locations are listed in
  order of creation, so a change removes some and appends others.  A location that is there all
  the time is missed exactly if a deletion shifts it across the offset.
*/
module GcPaging {
  import opened Base
  import opened GcTask

  /** What happens to the repository between two page requests. */
  datatype Change = Change(gone: set<nat>, added: seq<Location>)

  function Pruned(v: seq<Location>, gone: set<nat>): seq<Location> {
    if v == [] then [] else (if v[0].id in gone then [] else [v[0]]) + Pruned(v[1..], gone)
  }

  function Changed(v: seq<Location>, ch: Change): seq<Location> { Pruned(v, ch.gone) + ch.added }

  /** What the next page request meets; after the last change the repository is at rest. */
  function NextView(v: seq<Location>, changes: seq<Change>): seq<Location> {
    if changes == [] then v else Changed(v, changes[0])
  }

  function Rest(changes: seq<Change>): seq<Change> { if changes == [] then [] else changes[1..] }

  /** The locations after all changes. */
  function AfterAll(v: seq<Location>, changes: seq<Change>): seq<Location>
    decreases |changes|
  {
    if changes == [] then v else AfterAll(Changed(v, changes[0]), changes[1..])
  }

  /** Where the page that begins at the offset ends. */
  function End(v: seq<Location>, limit: nat, offset: nat): (e: nat)
    ensures offset <= e <= Max(offset, |v|)
  {
    if offset >= |v| then offset else Min(offset + limit, |v|)
  }

  function Page(v: seq<Location>, limit: nat, offset: nat): (page: seq<Location>)
    ensures offset + |page| == End(v, limit, offset)
  {
    if offset >= |v| then [] else v[offset..End(v, limit, offset)]
  }

  /** The page is not empty and more is to come. */
  predicate GoesOn(v: seq<Location>, limit: nat, offset: nat) { offset < End(v, limit, offset) < |v| }

  /** Everything the paging loop gets to see. */
  function Listed(v: seq<Location>, changes: seq<Change>, limit: nat, offset: nat): seq<Location>
    requires limit >= 1
    decreases |changes|, Max(0, |v| - offset)
  {
    if !GoesOn(v, limit, offset) then Page(v, limit, offset)
    else Page(v, limit, offset) + Listed(NextView(v, changes), Rest(changes), limit, End(v, limit, offset))
  }

  function RefsOf(page: seq<Location>): set<Ref> {
    set i | 0 <= i < |page| && page[i].ref.Some? :: page[i].ref.value
  }

  lemma RefsJoin(a: seq<Location>, b: seq<Location>)
    ensures RefsOf(a + b) == RefsOf(a) + RefsOf(b)
  {
    forall r | r in RefsOf(a) + RefsOf(b) ensures r in RefsOf(a + b) {
      if r in RefsOf(a) {
        var i :| 0 <= i < |a| && a[i].ref.Some? && a[i].ref.value == r;
        assert (a + b)[i] == a[i];
      } else {
        var i :| 0 <= i < |b| && b[i].ref.Some? && b[i].ref.value == r;
        assert (a + b)[|a| + i] == b[i];
      }
    }
    forall r | r in RefsOf(a + b) ensures r in RefsOf(a) + RefsOf(b) {
      var i :| 0 <= i < |a + b| && (a + b)[i].ref.Some? && (a + b)[i].ref.value == r;
      if i < |a| { assert a[i] == (a + b)[i]; } else { assert b[i - |a|] == (a + b)[i]; }
    }
  }

  lemma RefsSnoc(a: seq<Location>, x: Location)
    ensures RefsOf(a + [x]) == RefsOf(a) + if x.ref.Some? then {x.ref.value} else {}
  {
    RefsJoin(a, [x]);
    assert x.ref.Some? ==> [x][0].ref.value in RefsOf([x]);
  }

  lemma {:induction false} ListedHead(v: seq<Location>, changes: seq<Change>, limit: nat, offset: nat)
    requires limit >= 1
    ensures !GoesOn(v, limit, offset) ==> Listed(v, changes, limit, offset) == Page(v, limit, offset)
    ensures GoesOn(v, limit, offset) ==>
      Listed(v, changes, limit, offset) ==
        Page(v, limit, offset) + Listed(NextView(v, changes), Rest(changes), limit, End(v, limit, offset))
  {}

  /** What is still to be collected: all = refs + the references from the offset on. */
  ghost predicate Owed(all: set<Ref>, refs: set<Ref>, v: seq<Location>, changes: seq<Change>, limit: nat, offset: nat)
    requires limit >= 1
  {
    all == refs + RefsOf(Listed(v, changes, limit, offset))
  }

  lemma {:induction false} OwedLess(all: set<Ref>, refs: set<Ref>, v: seq<Location>, changes: seq<Change>, limit: nat, offset: nat)
    requires limit >= 1 && Owed(all, refs, v, changes, limit, offset)
    ensures var more := refs + RefsOf(Page(v, limit, offset));
      && (!GoesOn(v, limit, offset) ==> all == more)
      && (GoesOn(v, limit, offset) ==> Owed(all, more, NextView(v, changes), Rest(changes), limit, End(v, limit, offset)))
  {
    ListedHead(v, changes, limit, offset);
    if GoesOn(v, limit, offset) {
      RefsJoin(Page(v, limit, offset), Listed(NextView(v, changes), Rest(changes), limit, End(v, limit, offset)));
    }
  }

  predicate Differ(v: seq<Location>, i: nat, j: nat)
    requires i < |v| && j < |v|
  {
    v[i].id != v[j].id
  }

  predicate Apart(v: seq<Location>) {
    forall i, j {:trigger Differ(v, i, j)} | 0 <= i < j < |v| :: Differ(v, i, j)
  }

  /** File ids stay unique. */
  predicate Orderly(v: seq<Location>, changes: seq<Change>)
    decreases |changes|
  {
    Apart(v) && (changes != [] ==> Orderly(Changed(v, changes[0]), changes[1..]))
  }

  /** Some change adds x. */
  predicate Arrives(changes: seq<Change>, x: Location) { exists i | 0 <= i < |changes| :: x in changes[i].added }

  predicate Survives(changes: seq<Change>, x: Location) {
    forall i | 0 <= i < |changes| :: x.id !in changes[i].gone
  }

  /** x is at or after the offset. */
  predicate Ahead(v: seq<Location>, offset: nat, x: Location) { exists i | offset <= i < |v| :: v[i] == x }

  /** x is before the offset. */
  predicate Behind(v: seq<Location>, offset: nat, x: Location) {
    exists i | 0 <= i < Min(offset, |v|) :: v[i] == x
  }

  predicate OnPage(v: seq<Location>, limit: nat, offset: nat, x: Location) {
    exists i | offset <= i < Min(End(v, limit, offset), |v|) :: v[i] == x
  }

  /** x is on some page. */
  predicate Lists(v: seq<Location>, changes: seq<Change>, limit: nat, offset: nat, x: Location)
    requires limit >= 1
    decreases |changes|, Max(0, |v| - offset)
  {
    OnPage(v, limit, offset, x) ||
    (GoesOn(v, limit, offset) && Lists(NextView(v, changes), Rest(changes), limit, End(v, limit, offset), x))
  }

  /** x was still to come and is now taken as done. */
  predicate SteppedOver(v: seq<Location>, w: seq<Location>, offset: nat, x: Location) {
    Ahead(v, offset, x) && Behind(w, offset, x)
  }

  /** Some page boundary steps over x. */
  predicate Skipped(v: seq<Location>, changes: seq<Change>, limit: nat, offset: nat, x: Location)
    requires limit >= 1
    decreases |changes|, Max(0, |v| - offset)
  {
    GoesOn(v, limit, offset) &&
    (SteppedOver(v, NextView(v, changes), End(v, limit, offset), x) ||
     Skipped(NextView(v, changes), Rest(changes), limit, End(v, limit, offset), x))
  }

  lemma PageIs(v: seq<Location>, limit: nat, offset: nat, x: Location)
    ensures x in Page(v, limit, offset) <==> OnPage(v, limit, offset, x)
  {
    var page := Page(v, limit, offset);
    if x in page {
      var k :| 0 <= k < |page| && page[k] == x;
      assert v[offset + k] == x;
    }
    if i :| offset <= i < Min(End(v, limit, offset), |v|) && v[i] == x { assert page[i - offset] == x; }
  }

  lemma {:induction false} ListsIs(v: seq<Location>, changes: seq<Change>, limit: nat, offset: nat, x: Location)
    requires limit >= 1
    ensures x in Listed(v, changes, limit, offset) <==> Lists(v, changes, limit, offset, x)
    decreases |changes|, Max(0, |v| - offset)
  {
    PageIs(v, limit, offset, x);
    if GoesOn(v, limit, offset) {
      var rest := Listed(NextView(v, changes), Rest(changes), limit, End(v, limit, offset));
      ListsIs(NextView(v, changes), Rest(changes), limit, End(v, limit, offset), x);
      assert Listed(v, changes, limit, offset) == Page(v, limit, offset) + rest;
    }
  }

  // ---------------------------------------------------------------------------
  //  Changes
  // ---------------------------------------------------------------------------

  /** A survivor never moves back. */
  lemma {:induction false} PrunedShifts(v: seq<Location>, gone: set<nat>, i: nat)
    requires i < |v| && v[i].id !in gone
    ensures exists j | 0 <= j <= i && j < |Pruned(v, gone)| :: Pruned(v, gone)[j] == v[i]
    decreases |v|
  {
    if i > 0 {
      PrunedShifts(v[1..], gone, i - 1);
      var rest := Pruned(v[1..], gone);
      var j :| 0 <= j <= i - 1 && j < |rest| && rest[j] == v[1..][i - 1];
      var k := if v[0].id in gone then j else j + 1;
      assert Pruned(v, gone)[k] == v[i];
    } else {
      assert Pruned(v, gone)[0] == v[0];
    }
  }

  lemma {:induction false} PrunedSplits(a: seq<Location>, b: seq<Location>, gone: set<nat>)
    ensures Pruned(a + b, gone) == Pruned(a, gone) + Pruned(b, gone)
    decreases |a|
  {
    if a == [] {
      assert a + b == b;
    } else {
      var c := a + b;
      PrunedSplits(a[1..], b, gone);
      assert c[1..] == a[1..] + b && c[0] == a[0];
    }
  }

  /** Pruning shortens exactly if something is removed. */
  lemma {:induction false} PrunedLength(v: seq<Location>, gone: set<nat>)
    ensures |Pruned(v, gone)| <= |v|
    ensures |Pruned(v, gone)| == |v| ==> Pruned(v, gone) == v
    ensures |Pruned(v, gone)| == |v| <==> forall i | 0 <= i < |v| :: v[i].id !in gone
    decreases |v|
  {
    if v != [] {
      PrunedLength(v[1..], gone);
      assert forall i | 0 < i < |v| :: v[i] == v[1..][i - 1];
      assert v == [v[0]] + v[1..];
    }
  }

  /** Where a survivor is after a change: in place or further to the front. */
  lemma Shifted(v: seq<Location>, changes: seq<Change>, i: nat)
    requires i < |v| && Survives(changes, v[i])
    ensures exists j | 0 <= j <= i && j < |NextView(v, changes)| :: NextView(v, changes)[j] == v[i]
  {
    if changes != [] {
      PrunedShifts(v, changes[0].gone, i);
      var kept := Pruned(v, changes[0].gone);
      var j :| 0 <= j <= i && j < |kept| && kept[j] == v[i];
      assert NextView(v, changes)[j] == v[i];
    } else {
      assert NextView(v, changes)[i] == v[i];
    }
  }

  /** No location is on both sides of an offset. */
  lemma OneSide(v: seq<Location>, offset: nat, x: Location)
    requires Apart(v) && Behind(v, offset, x)
    ensures !Ahead(v, offset, x)
  {
    var i :| 0 <= i < Min(offset, |v|) && v[i] == x;
    forall j | offset <= j < |v| ensures v[j] != x { assert Differ(v, i, j); }
  }

  lemma RestOrderly(v: seq<Location>, changes: seq<Change>, x: Location)
    requires Orderly(v, changes) && Survives(changes, x)
    ensures Orderly(NextView(v, changes), Rest(changes)) && Survives(Rest(changes), x)
  {}

  /** What is behind the offset stays behind it. */
  lemma BehindStays(v: seq<Location>, changes: seq<Change>, offset: nat, x: Location)
    requires Survives(changes, x) && Behind(v, offset, x)
    ensures Behind(NextView(v, changes), offset, x)
  {
    var i :| 0 <= i < Min(offset, |v|) && v[i] == x;
    Shifted(v, changes, i);
  }

  /** What is ahead of it ends up on exactly one side. */
  lemma Landed(v: seq<Location>, changes: seq<Change>, offset: nat, x: Location)
    requires Orderly(v, changes) && Survives(changes, x) && Ahead(v, offset, x)
    ensures Ahead(NextView(v, changes), offset, x) <==> !Behind(NextView(v, changes), offset, x)
  {
    var w := NextView(v, changes);
    var i :| offset <= i < |v| && v[i] == x;
    RestOrderly(v, changes, x);
    Shifted(v, changes, i);
    var j :| 0 <= j <= i && j < |w| && w[j] == x;
    if Behind(w, offset, x) { OneSide(w, offset, x); }
  }

  // ---------------------------------------------------------------------------
  //  One location
  // ---------------------------------------------------------------------------

  /** A page covers exactly the positions it passes. */
  lemma PageSides(v: seq<Location>, limit: nat, offset: nat, x: Location)
    requires limit >= 1 && Apart(v)
    ensures Behind(v, offset, x) ==> !OnPage(v, limit, offset, x) && Behind(v, End(v, limit, offset), x)
    ensures OnPage(v, limit, offset, x) ==> Behind(v, End(v, limit, offset), x)
    ensures Ahead(v, offset, x) && !OnPage(v, limit, offset, x) ==>
      GoesOn(v, limit, offset) && Ahead(v, End(v, limit, offset), x)
  {
    if Behind(v, offset, x) { OneSide(v, offset, x); }
  }

  /** A location that the page has passed is not stepped over at its end. */
  lemma PassedOver(v: seq<Location>, changes: seq<Change>, o: nat, x: Location)
    requires Orderly(v, changes) && Survives(changes, x) && Behind(v, o, x)
    ensures !Ahead(v, o, x) && Orderly(NextView(v, changes), Rest(changes)) && Survives(Rest(changes), x)
    ensures Behind(NextView(v, changes), o, x)
  {
    OneSide(v, o, x);
    RestOrderly(v, changes, x);
    BehindStays(v, changes, o, x);
  }

  /** A location behind the offset is neither listed nor stepped over any more. */
  lemma {:induction false} BehindIsDone(v: seq<Location>, changes: seq<Change>, limit: nat, offset: nat, x: Location)
    requires limit >= 1 && Orderly(v, changes) && Survives(changes, x) && Behind(v, offset, x)
    ensures !Lists(v, changes, limit, offset, x) && !Skipped(v, changes, limit, offset, x)
    decreases |changes|, Max(0, |v| - offset)
  {
    PageSides(v, limit, offset, x);
    if GoesOn(v, limit, offset) {
      PassedOver(v, changes, End(v, limit, offset), x);
      BehindIsDone(NextView(v, changes), Rest(changes), limit, End(v, limit, offset), x);
    }
  }

  /** A location on the page is not stepped over later. */
  lemma OnPageIsDone(v: seq<Location>, changes: seq<Change>, limit: nat, offset: nat, x: Location)
    requires limit >= 1 && Orderly(v, changes) && Survives(changes, x) && OnPage(v, limit, offset, x)
    ensures !Skipped(v, changes, limit, offset, x)
  {
    PageSides(v, limit, offset, x);
    if GoesOn(v, limit, offset) {
      PassedOver(v, changes, End(v, limit, offset), x);
      BehindIsDone(NextView(v, changes), Rest(changes), limit, End(v, limit, offset), x);
    }
  }

  lemma {:induction false} Fate(v: seq<Location>, changes: seq<Change>, limit: nat, offset: nat, x: Location)
    requires limit >= 1 && Orderly(v, changes) && Survives(changes, x) && Ahead(v, offset, x)
    ensures Lists(v, changes, limit, offset, x) <==> !Skipped(v, changes, limit, offset, x)
    decreases |changes|, Max(0, |v| - offset)
  {
    PageSides(v, limit, offset, x);
    if OnPage(v, limit, offset, x) {
      OnPageIsDone(v, changes, limit, offset, x);
    } else {
      var o, w := End(v, limit, offset), NextView(v, changes);
      RestOrderly(v, changes, x);
      Landed(v, changes, o, x);
      if Behind(w, o, x) { BehindIsDone(w, Rest(changes), limit, o, x); } else { Fate(w, Rest(changes), limit, o, x); }
    }
  }

  /** For every page limit and every history: a location that is there all the time is listed if
      and only if no page boundary steps over it. */
  lemma ListedIff(v: seq<Location>, changes: seq<Change>, limit: nat, offset: nat, x: Location)
    requires limit >= 1 && Orderly(v, changes) && Survives(changes, x) && Ahead(v, offset, x)
    ensures x in Listed(v, changes, limit, offset) <==> !Skipped(v, changes, limit, offset, x)
  {
    ListsIs(v, changes, limit, offset, x);
    Fate(v, changes, limit, offset, x);
  }

  // ---------------------------------------------------------------------------
  //  All locations
  // ---------------------------------------------------------------------------

  /** The change removes a location before the offset. */
  predicate Cuts(v: seq<Location>, ch: Change, offset: nat) {
    exists i | 0 <= i < Min(offset, |v|) :: v[i].id in ch.gone
  }

  /** A location at or after the offset survives the change. */
  predicate Pending(v: seq<Location>, ch: Change, offset: nat) {
    exists i | offset <= i < |v| :: v[i].id !in ch.gone
  }

  lemma FrontSurvivor(v: seq<Location>, gone: set<nat>, i: nat)
    requires i < |v| && v[i].id !in gone
    ensures Pruned(v, gone) != [] && Pruned(v, gone)[0] in v && Pruned(v, gone)[0].id !in gone
    decreases |v|
  {
    if v[0].id in gone {
      FrontSurvivor(v[1..], gone, i - 1);
      assert Pruned(v, gone) == Pruned(v[1..], gone);
    }
  }

  /** A change that removes something before the offset steps over the first survivor after it. */
  lemma CutStepsOver(v: seq<Location>, ch: Change, offset: nat)
    requires offset <= |v| && Cuts(v, ch, offset) && Pending(v, ch, offset)
    ensures exists x: Location :: x.id !in ch.gone && SteppedOver(v, Changed(v, ch), offset, x)
  {
    var a, b := v[..offset], v[offset..];
    assert v == a + b;
    PrunedSplits(a, b, ch.gone);
    PrunedLength(a, ch.gone);
    var k :| 0 <= k < offset && v[k].id in ch.gone;
    assert a[k].id in ch.gone;
    var i :| offset <= i < |v| && v[i].id !in ch.gone;
    FrontSurvivor(b, ch.gone, i - offset);
    var x := Pruned(b, ch.gone)[0];
    var n := |Pruned(a, ch.gone)|;
    assert Changed(v, ch)[n] == x && n < offset;
    var m :| 0 <= m < |b| && b[m] == x;
    assert v[offset + m] == x;
    assert SteppedOver(v, Changed(v, ch), offset, x);
  }

  /** Without such a removal nothing is stepped over. */
  lemma NoCutNoStep(v: seq<Location>, ch: Change, offset: nat, x: Location)
    requires offset <= |v| && Apart(v) && !Cuts(v, ch, offset)
    ensures !SteppedOver(v, Changed(v, ch), offset, x)
  {
    var a, b := v[..offset], v[offset..];
    assert v == a + b;
    PrunedSplits(a, b, ch.gone);
    PrunedLength(a, ch.gone);
    assert forall i | 0 <= i < |a| :: a[i] == v[i];
    assert Pruned(a, ch.gone) == a;
    assert forall i | 0 <= i < offset :: Changed(v, ch)[i] == v[i];
    if Behind(v, offset, x) { OneSide(v, offset, x); }
  }

  /** A change between two pages steps over a surviving location if and only if it removes a
      location before the offset and leaves one at or after it. */
  lemma BoundaryIff(v: seq<Location>, ch: Change, offset: nat)
    requires offset <= |v| && Apart(v)
    ensures (exists x: Location :: x.id !in ch.gone && SteppedOver(v, Changed(v, ch), offset, x)) <==>
      Cuts(v, ch, offset) && Pending(v, ch, offset)
  {
    if Cuts(v, ch, offset) && Pending(v, ch, offset) { CutStepsOver(v, ch, offset); }
    if x: Location :| x.id !in ch.gone && SteppedOver(v, Changed(v, ch), offset, x) {
      if !Cuts(v, ch, offset) { NoCutNoStep(v, ch, offset, x); }
      var i :| offset <= i < |v| && v[i] == x;
      assert v[i].id !in ch.gone;
    }
  }

  /** No change removes a location before the offset of its moment. */
  predicate Quiet(v: seq<Location>, changes: seq<Change>, limit: nat, offset: nat)
    requires limit >= 1
    decreases |changes|, Max(0, |v| - offset)
  {
    GoesOn(v, limit, offset) ==>
      && (changes != [] ==> !Cuts(v, changes[0], End(v, limit, offset)))
      && Quiet(NextView(v, changes), Rest(changes), limit, End(v, limit, offset))
  }

  lemma QuietStep(v: seq<Location>, changes: seq<Change>, o: nat, x: Location)
    requires o <= |v| && Apart(v) && (changes != [] ==> !Cuts(v, changes[0], o))
    ensures !SteppedOver(v, NextView(v, changes), o, x)
  {
    if changes != [] { NoCutNoStep(v, changes[0], o, x); } else if Behind(v, o, x) { OneSide(v, o, x); }
  }

  lemma {:induction false} QuietSkipsNone(v: seq<Location>, changes: seq<Change>, limit: nat, offset: nat, x: Location)
    requires limit >= 1 && Orderly(v, changes) && Survives(changes, x) && Quiet(v, changes, limit, offset)
    ensures !Skipped(v, changes, limit, offset, x)
    decreases |changes|, Max(0, |v| - offset)
  {
    if GoesOn(v, limit, offset) {
      QuietStep(v, changes, End(v, limit, offset), x);
      RestOrderly(v, changes, x);
      QuietSkipsNone(NextView(v, changes), Rest(changes), limit, End(v, limit, offset), x);
    }
  }

  /** If no change removes a location that the paging has passed, nothing that is there all the
      time is missed; in particular nothing at all if the repository does not change. */
  lemma QuietListsAll(v: seq<Location>, changes: seq<Change>, limit: nat, i: nat)
    requires limit >= 1 && Orderly(v, changes) && Quiet(v, changes, limit, 0)
    requires i < |v| && Survives(changes, v[i])
    ensures v[i] in Listed(v, changes, limit, 0)
  {
    QuietSkipsNone(v, changes, limit, 0, v[i]);
    ListedIff(v, changes, limit, 0, v[i]);
  }

  /** A repository at rest is listed without a gap. */
  lemma {:induction false} AtRest(v: seq<Location>, limit: nat, offset: nat, x: Location)
    requires limit >= 1 && Apart(v)
    ensures !Skipped(v, [], limit, offset, x)
    decreases Max(0, |v| - offset)
  {
    if GoesOn(v, limit, offset) {
      QuietStep(v, [], End(v, limit, offset), x);
      AtRest(v, limit, End(v, limit, offset), x);
    }
  }

  lemma OrderlyOnce(v: seq<Location>, ch: Change)
    ensures Orderly(v, [ch]) <==> Apart(v) && Apart(Changed(v, ch))
  {
    assert [ch][0] == ch && [ch][1..] == [];
    assert Orderly(Changed(v, ch), []) == Apart(Changed(v, ch));
  }

  lemma SkippedOnce(v: seq<Location>, ch: Change, limit: nat, offset: nat, x: Location)
    requires limit >= 1 && offset + limit < |v| && Apart(Changed(v, ch))
    ensures Skipped(v, [ch], limit, offset, x) <==> SteppedOver(v, Changed(v, ch), offset + limit, x)
  {
    AtRest(Changed(v, ch), limit, offset + limit, x);
    assert NextView(v, [ch]) == Changed(v, ch) && Rest([ch]) == [];
  }

  lemma OneChange(v: seq<Location>, ch: Change, limit: nat, offset: nat, x: Location)
    requires limit >= 1 && offset + limit < |v| && Orderly(v, [ch]) && Ahead(v, offset, x) && x.id !in ch.gone
    ensures x in Listed(v, [ch], limit, offset) <==> !SteppedOver(v, Changed(v, ch), offset + limit, x)
  {
    OrderlyOnce(v, ch);
    SkippedOnce(v, ch, limit, offset, x);
    assert Survives([ch], x);
    ListedIff(v, [ch], limit, offset, x);
  }

  /** One change, after the page at the offset: everything that stays is listed if and only if the
      change removes nothing the paging has passed, or leaves nothing it has still to list. */
  lemma OneChangeIff(v: seq<Location>, ch: Change, limit: nat, offset: nat)
    requires limit >= 1 && offset + limit < |v| && Orderly(v, [ch])
    ensures (forall x | Ahead(v, offset, x) && x.id !in ch.gone :: x in Listed(v, [ch], limit, offset)) <==>
      !(Cuts(v, ch, offset + limit) && Pending(v, ch, offset + limit))
  {
    var o := offset + limit;
    BoundaryIff(v, ch, o);
    forall x | Ahead(v, offset, x) && x.id !in ch.gone
      ensures x in Listed(v, [ch], limit, offset) <==> !SteppedOver(v, Changed(v, ch), o, x)
    {
      OneChange(v, ch, limit, offset, x);
    }
    if x: Location :| x.id !in ch.gone && SteppedOver(v, Changed(v, ch), o, x) {
      var i :| o <= i < |v| && v[i] == x;
      assert Ahead(v, offset, x);
    }
  }

  lemma {:induction false} AtRestListsAll(v: seq<Location>, limit: nat, offset: nat)
    requires limit >= 1 && offset <= |v|
    ensures Listed(v, [], limit, offset) == v[offset..]
    decreases |v| - offset
  {
    if GoesOn(v, limit, offset) {
      AtRestListsAll(v, limit, End(v, limit, offset));
      assert v[offset..] == Page(v, limit, offset) + v[End(v, limit, offset)..];
    }
  }

  // ---------------------------------------------------------------------------
  //  What the orphan pass makes of it
  // ---------------------------------------------------------------------------

  lemma {:induction false} PrunedKnown(v: seq<Location>, gone: set<nat>, x: Location)
    requires x in Pruned(v, gone)
    ensures x in v
    decreases |v|
  {
    if v[0].id !in gone && x == v[0] {} else { PrunedKnown(v[1..], gone, x); }
  }

  lemma KnownEarlier(v: seq<Location>, changes: seq<Change>, x: Location)
    requires x in NextView(v, changes) || Arrives(Rest(changes), x)
    ensures x in v || Arrives(changes, x)
  {
    if changes != [] {
      if x in Pruned(v, changes[0].gone) {
        PrunedKnown(v, changes[0].gone, x);
      } else if x in changes[0].added {
        assert Arrives(changes, x);
      } else {
        var i :| 0 <= i < |Rest(changes)| && x in Rest(changes)[i].added;
        assert x in changes[i + 1].added;
      }
    }
  }

  lemma {:induction false} ListsKnown(v: seq<Location>, changes: seq<Change>, limit: nat, offset: nat, x: Location)
    requires limit >= 1 && Lists(v, changes, limit, offset, x)
    ensures x in v || Arrives(changes, x)
    decreases |changes|, Max(0, |v| - offset)
  {
    if !OnPage(v, limit, offset, x) {
      ListsKnown(NextView(v, changes), Rest(changes), limit, End(v, limit, offset), x);
      KnownEarlier(v, changes, x);
    }
  }

  /** Nothing is listed that was not there at some time. */
  lemma ListedKnown(v: seq<Location>, changes: seq<Change>, limit: nat, offset: nat, x: Location)
    requires limit >= 1 && x in Listed(v, changes, limit, offset)
    ensures x in v || Arrives(changes, x)
  {
    ListsIs(v, changes, limit, offset, x);
    ListsKnown(v, changes, limit, offset, x);
  }

  lemma {:induction false} OrphanListed(ls: seq<Location>, c: Setup, es: seq<Entry>, key: nat)
    ensures OfKey(key) in Orphans(ls, c, es) <==>
      exists k | 0 <= k < |es| :: es[k].key == key && IsOrphan(ls, c, es[k]) && (c.dry || c.works(Ref(c.container, key)))
    decreases |es|
  {
    if es != [] {
      var n := |es| - 1;
      OrphanListed(ls, c, es[..n], key);
      assert forall k | 0 <= k < n :: es[..n][k] == es[k];
    }
  }

  /** Only x, of all locations there are or will be, refers to r. */
  ghost predicate SoleOwner(v: seq<Location>, changes: seq<Change>, x: Location, r: Ref) {
    x.ref == Some(r) && forall y: Location | y.ref == Some(r) && (y in v || Arrives(changes, y)) :: y == x
  }

  lemma OwnerReferences(v: seq<Location>, changes: seq<Change>, limit: nat, x: Location, c: Setup, key: nat)
    requires limit >= 1 && SoleOwner(v, changes, x, Ref(c.container, key))
    ensures var all := Listed(v, changes, limit, 0); Referenced(all, c, key) <==> x in all
  {
    var all := Listed(v, changes, limit, 0);
    if i :| 0 <= i < |all| && all[i].ref == Some(Ref(c.container, key)) { ListedKnown(v, changes, limit, 0, all[i]); }
    if x in all {
      var i :| 0 <= i < |all| && all[i] == x;
      assert all[i].ref == Some(Ref(c.container, key));
    }
  }

  /** An old object whose one location is there all the time is reported as an orphan if and only
      if some page boundary steps over that location. */
  lemma OrphanedIff(v: seq<Location>, changes: seq<Change>, limit: nat, x: Location, c: Setup, es: seq<Entry>, k: nat)
    requires limit >= 1 && Orderly(v, changes) && Survives(changes, x) && x in v
    requires k < |es| && es[k].mtime <= c.cutoff && SoleOwner(v, changes, x, Ref(c.container, es[k].key))
    requires c.dry || c.works(Ref(c.container, es[k].key))
    ensures OfKey(es[k].key) in Orphans(Listed(v, changes, limit, 0), c, es) <==> Skipped(v, changes, limit, 0, x)
  {
    var all, key := Listed(v, changes, limit, 0), es[k].key;
    OwnerReferences(v, changes, limit, x, c, key);
    OrphanListed(all, c, es, key);
    ListedIff(v, changes, limit, 0, x);
    if !Referenced(all, c, key) { assert IsOrphan(all, c, es[k]); }
  }

  // ---------------------------------------------------------------------------
  //  The failing input, for every page limit
  // ---------------------------------------------------------------------------

  function Numbered(n: nat): seq<Location> {
    seq(n, i requires 0 <= i < n => Location(i, i, Persistent, Some(Ref(0, i))))
  }

  lemma FirstCut(n: nat)
    requires n >= 1
    ensures var v, ch := Numbered(n), Change({0}, []); Changed(v, ch) == v[1..] && Orderly(v, [ch])
  {
    var v, ch := Numbered(n), Change({0}, []);
    PrunedLength(v[1..], ch.gone);
    assert Changed(v, ch) == v[1..];
    OrderlyOnce(v, ch);
  }

  /** limit + 1 locations, the first one deleted after the first page: the last one, which was
      there all the time, is not listed, and its reference is missing. */
  lemma DeletionHidesReference(limit: nat)
    requires limit >= 1
    ensures var v, ch, r := Numbered(limit + 1), Change({0}, []), Ref(0, limit);
      && r in RefsOf(v) && r in RefsOf(Changed(v, ch))
      && r !in RefsOf(Listed(v, [ch], limit, 0))
  {
    var v, ch, r := Numbered(limit + 1), Change({0}, []), Ref(0, limit);
    var w, x := Changed(v, ch), v[limit];
    FirstCut(limit + 1);
    assert w[limit - 1] == x && x.ref == Some(r);
    assert Ahead(v, 0, x) && SteppedOver(v, w, limit, x);
    OneChange(v, ch, limit, 0, x);
    var all := Listed(v, [ch], limit, 0);
    if r in RefsOf(all) { OnlyOwner(v, ch, limit, r); }
  }

  /** References are told apart by their numbers. */
  lemma OnlyOwner(v: seq<Location>, ch: Change, limit: nat, r: Ref)
    requires limit >= 1 && v == Numbered(limit + 1) && ch.added == [] && r == Ref(0, limit)
    requires r in RefsOf(Listed(v, [ch], limit, 0))
    ensures v[limit] in Listed(v, [ch], limit, 0)
  {
    var all := Listed(v, [ch], limit, 0);
    var i :| 0 <= i < |all| && all[i].ref.Some? && all[i].ref.value == r;
    ListedKnown(v, [ch], limit, 0, all[i]);
  }
}
