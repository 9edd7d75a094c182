/**
  AtomicWriteFile (fs.cpp): write a temporary file, sync it, rename it over the target, sync the
  directory.  Every system call is a crash point and may fail; writes may be short.
*/
module AtomicWrite {
  import opened Base
  import opened CrashFs

  datatype WriteOptions = WriteOptions(fsyncData: bool, fsyncDir: bool)

  function At(img: map<Name, Bytes>, n: Name): Option<Bytes> {
    if n in img then Some(img[n]) else None
  }

  /** Every inode in use is below the next one to be handed out. */
  ghost predicate WellFormed(fs: Fs) {
    && (forall n | n in fs.view :: fs.view[n] < fs.next)
    && (forall n | n in fs.dir :: fs.dir[n] < fs.next)
    && (forall e | e in fs.pending && e.Link? :: e.ino < fs.next)
  }

  /** The name occurs nowhere (temporary names carry a process id and random digits). */
  ghost predicate Unused(fs: Fs, n: Name) {
    n !in fs.view && n !in fs.dir && (forall e | e in fs.pending :: e.name != n)
  }

  /** After any crash the target shows what it would have shown had the same crash happened
      before the call, or the whole new content. */
  ghost predicate OldOrNew(before: Fs, now: Fs, n: Name, data: Bytes) {
    forall k: Crash :: At(Survive(now, k), n) == At(Survive(before, k), n) || At(Survive(now, k), n) == Some(data)
  }

  ghost predicate AlwaysOldOrNew(before: Fs, trace: seq<Fs>, n: Name, data: Bytes) {
    forall j | 0 <= j < |trace| :: OldOrNew(before, trace[j], n, data)
  }

  /** No crash can take the content away. */
  ghost predicate Durable(fs: Fs, n: Name, data: Bytes) {
    forall k: Crash :: At(Survive(fs, k), n) == Some(data)
  }

  // ---------------------------------------------------------------------------
  //  What crashes show at the target
  // ---------------------------------------------------------------------------

  lemma {:induction false} ReplayOther(d: map<Name, nat>, p: seq<Effect>, q: seq<Effect>, keep: set<nat>, n: Name)
    requires forall e | e in q :: e.name != n
    ensures var a, b := Replay(d, p, keep), Replay(d, p + q, keep);
      (n in b <==> n in a) && (n in a ==> b[n] == a[n])
    decreases |q|
  {
    if q == [] {
      assert p + q == p;
    } else {
      var m := |q| - 1;
      ReplayOther(d, p, q[..m], keep, n);
      assert (p + q)[..|p + q| - 1] == p + q[..m];
      assert q[m] in q;
    }
  }

  /** So far only the temporary name and its new inode were touched. */
  ghost predicate Prepared(before: Fs, fs: Fs, tmp: Name, extra: seq<Effect>) {
    && fs.dir == before.dir && fs.pending == before.pending + extra
    && (forall e | e in extra :: e.name == tmp)
    && fs.next >= before.next
    && (forall i: nat | i < before.next ::
          (i in fs.files <==> i in before.files) && (i in fs.files ==> fs.files[i] == before.files[i]))
  }

  lemma ShowsOld(before: Fs, fs: Fs, tmp: Name, extra: seq<Effect>, n: Name, k: Crash)
    requires WellFormed(before) && Prepared(before, fs, tmp, extra) && n != tmp
    ensures At(Survive(fs, k), n) == At(Survive(before, k), n)
  {
    ReplayOther(before.dir, before.pending, extra, k.keep, n);
    if n in Replay(before.dir, before.pending, k.keep) {
      Origin(before.dir, before.pending, k.keep, n);
      assert Replay(before.dir, before.pending, k.keep)[n] < before.next;
    }
  }

  /** The temporary file exists, under a new inode, and holds `f`. */
  ghost predicate Staged(before: Fs, mid: Fs, tmp: Name, f: File) {
    && Prepared(before, mid, tmp, [Link(tmp, before.next)])
    && tmp in mid.view && mid.view[tmp] == before.next
    && before.next in mid.files && mid.files[before.next] == f
  }

  /** Index of the pending effect that puts the new file under the target name. */
  function Swap(before: Fs): nat { |before.pending| + 1 }

  lemma ShowsSwap(before: Fs, mid: Fs, tmp: Name, f: File, n: Name, k: Crash)
    requires WellFormed(before) && Staged(before, mid, tmp, f) && n != tmp
    ensures var fs := Rename(mid, tmp, n);
      At(Survive(fs, k), n) ==
        if Swap(before) in k.keep then Some(DataAfter(mid, k, before.next)) else At(Survive(before, k), n)
  {
    var fs := Rename(mid, tmp, n);
    var link := Link(n, before.next);
    var p := mid.pending + [link];
    assert fs.pending == p + [Unlink(tmp)];
    ReplayOther(fs.dir, p, [Unlink(tmp)], k.keep, n);
    assert p[..|p| - 1] == mid.pending && |p| - 1 == Swap(before);
    ShowsOld(before, mid, tmp, [Link(tmp, before.next)], n, k);
  }

  lemma SwapOldOrNew(before: Fs, mid: Fs, tmp: Name, n: Name, data: Bytes)
    requires WellFormed(before) && Staged(before, mid, tmp, File(data, true)) && n != tmp
    ensures OldOrNew(before, Rename(mid, tmp, n), n, data)
    ensures OldOrNew(before, SyncDir(Rename(mid, tmp, n)), n, data)
    ensures Durable(SyncDir(Rename(mid, tmp, n)), n, data)
  {
    forall k: Crash { ShowsSwap(before, mid, tmp, File(data, true), n, k); }
  }

  /** Effects that are not pending cannot matter. */
  lemma {:induction false} ReplayIgnores(d: map<Name, nat>, p: seq<Effect>, keep: set<nat>, i: nat)
    requires i >= |p|
    ensures Replay(d, p, keep - {i}) == Replay(d, p, keep)
    decreases |p|
  {
    if p != [] { ReplayIgnores(d, p[..|p| - 1], keep, i); }
  }

  /** Without a directory sync a crash may undo the swap. */
  lemma SwapDurableIff(before: Fs, mid: Fs, tmp: Name, n: Name, data: Bytes)
    requires WellFormed(before) && Staged(before, mid, tmp, File(data, true)) && n != tmp
    ensures Durable(Rename(mid, tmp, n), n, data) <==> Durable(before, n, data)
  {
    var fs := Rename(mid, tmp, n);
    forall k: Crash { ShowsSwap(before, mid, tmp, File(data, true), n, k); }
    if Durable(fs, n, data) {
      forall k: Crash ensures At(Survive(before, k), n) == Some(data) {
        var undone := Crash(k.keep - {Swap(before)}, k.junk);
        assert At(Survive(fs, undone), n) == Some(data);
        ReplayIgnores(before.dir, before.pending, k.keep, Swap(before));
        assert Survive(before, undone) == Survive(before, k);
      }
    }
  }

  /** Junk in an inode that is not in use yet does not show. */
  lemma JunkUnused(fs: Fs, keep: set<nat>, junk: Bytes, n: Name)
    requires WellFormed(fs)
    ensures At(Survive(fs, Crash(keep, map[fs.next := junk])), n) == At(Survive(fs, Crash(keep, map[])), n)
  {
    if n in Replay(fs.dir, fs.pending, keep) {
      Origin(fs.dir, fs.pending, keep, n);
      assert Replay(fs.dir, fs.pending, keep)[n] < fs.next;
    }
  }

  function Zeros(n: nat): (b: Bytes)
    ensures |b| == n
  {
    seq(n, _ => 0 as Byte)
  }

  /** If the data was not synced, the swapped target may hold neither. */
  lemma SwapTears(before: Fs, mid: Fs, tmp: Name, f: File, n: Name, data: Bytes)
    requires WellFormed(before) && Staged(before, mid, tmp, f) && !f.synced && n != tmp
    ensures !OldOrNew(before, Rename(mid, tmp, n), n, data)
    ensures !Durable(Rename(mid, tmp, n), n, data)
    ensures !Durable(SyncDir(Rename(mid, tmp, n)), n, data)
  {
    var fs := Rename(mid, tmp, n);
    var keep := {Swap(before)};
    var old0 := At(Survive(before, Crash(keep, map[])), n);
    var junk := Zeros(|data| + 1 + if old0.Some? then |old0.value| else 0);
    var k := Crash(keep, map[before.next := junk]);
    JunkUnused(before, keep, junk, n);
    ShowsSwap(before, mid, tmp, f, n, k);
    assert At(Survive(fs, k), n) == Some(junk);
    assert At(Survive(SyncDir(fs), k), n) == Some(junk);
  }

  // ---------------------------------------------------------------------------
  //  The program
  // ---------------------------------------------------------------------------

  function TempFor(path: string, suffix: string): Name { Path(path + ".tmp." + suffix) }

  /** parent_path() is empty exactly for a path without a slash. */
  predicate HasParent(path: string) { '/' in path }

  ghost predicate Unmoved(before: Fs, fs: Fs, n: Name) {
    forall k: Crash :: At(Survive(fs, k), n) == At(Survive(before, k), n)
  }

  ghost predicate NeverMoved(before: Fs, trace: seq<Fs>, n: Name) {
    forall j | 0 <= j < |trace| :: Unmoved(before, trace[j], n)
  }

  lemma PreparedUnmoved(before: Fs, fs: Fs, tmp: Name, extra: seq<Effect>, n: Name)
    requires WellFormed(before) && Prepared(before, fs, tmp, extra) && n != tmp
    ensures Unmoved(before, fs, n)
  {
    forall k: Crash { ShowsOld(before, fs, tmp, extra, n, k); }
  }

  lemma NeverMovedFine(before: Fs, trace: seq<Fs>, n: Name, data: Bytes)
    requires NeverMoved(before, trace, n)
    ensures AlwaysOldOrNew(before, trace, n, data)
  {
    forall j | 0 <= j < |trace| ensures OldOrNew(before, trace[j], n, data) {
      assert Unmoved(before, trace[j], n);
    }
  }

  /** The running system sees the new file under the target name. */
  ghost predicate Renamed(before: Fs, fs: Fs, path: string) {
    Path(path) in fs.view && fs.view[Path(path)] == before.next
  }

  /** It has the content under the target name, and everything else as before. */
  ghost predicate Shows(before: Fs, fs: Fs, path: string, data: Bytes) {
    && fs.view == before.view[Path(path) := before.next]
    && before.next in fs.files && fs.files[before.next].data == data
  }

  // `calls(k)` says how the k-th system call goes: 0 for failure, otherwise success, and for a
  // write how many bytes it takes at most.

  /** The call after the writes of `left` bytes that begin with call k, if none of them fails. */
  function AfterWrites(calls: nat -> nat, k: nat, left: nat): Option<nat>
    decreases left
  {
    if left == 0 then Some(k)
    else if calls(k) == 0 then None
    else AfterWrites(calls, k + 1, Max(0, left - calls(k)))
  }

  /** The number of the rename call, if open, writes, data sync and close succeed. */
  function RenameCall(calls: nat -> nat, length: nat, opts: WriteOptions): Option<nat> {
    var k := if calls(0) == 0 then None else AfterWrites(calls, 1, length);
    if k.None? then None
    else if !opts.fsyncData then (if calls(k.value) == 0 then None else Some(k.value + 1))
    else if calls(k.value) == 0 || calls(k.value + 1) == 0 then None
    else Some(k.value + 2)
  }

  lemma {:induction false} WritesSucceed(calls: nat -> nat, k: nat, left: nat)
    requires forall n: nat :: calls(n) > 0
    ensures AfterWrites(calls, k, left).Some?
    decreases left
  {
    if left > 0 { WritesSucceed(calls, k + 1, Max(0, left - calls(k))); }
  }

  /** With this pattern of failing calls the rename takes place. */
  predicate ReachesRename(calls: nat -> nat, length: nat, opts: WriteOptions) {
    RenameCall(calls, length, opts).Some? && calls(RenameCall(calls, length, opts).value) > 0
  }

  /** If one write takes everything, the rename takes place exactly if open, write, the data sync
      that was asked for, close and rename itself succeed. */
  lemma OneWrite(calls: nat -> nat, length: nat, opts: WriteOptions)
    requires 0 < length <= calls(1)
    ensures ReachesRename(calls, length, opts) <==>
      && calls(0) > 0 && calls(2) > 0 && calls(3) > 0
      && (opts.fsyncData ==> calls(4) > 0)
  {
    assert AfterWrites(calls, 1, length) == AfterWrites(calls, 2, 0);
  }

  lemma RenameShows(before: Fs, mid: Fs, tmp: Name, path: string, f: File)
    requires Path(path) != tmp && Staged(before, mid, tmp, f) && tmp !in before.view
    requires mid.view == before.view[tmp := before.next]
    ensures Shows(before, Rename(mid, tmp, Path(path)), path, f.data)
    ensures Shows(before, SyncDir(Rename(mid, tmp, Path(path))), path, f.data)
  {
    assert Rename(mid, tmp, Path(path)).view == before.view[Path(path) := before.next];
  }

  /** The write loop: pieces of any positive size, or a failure. */
  method WriteAll(before: Fs, start: Fs, tmp: Name, data: Bytes, calls: nat -> nat, ghost n: Name)
    returns (wrote: bool, fs: Fs, next: nat, ghost trace: seq<Fs>, ghost f: File)
    requires WellFormed(before) && n != tmp && Staged(before, start, tmp, File([], false))
    ensures NeverMoved(before, trace, n) && fs.view == start.view
    ensures Staged(before, fs, tmp, f) && (wrote ==> f == File(data, false))
    ensures AfterWrites(calls, 1, |data|) == if wrote then Some(next) else None
  {
    fs, trace, next, wrote := start, [], 1, true;
    var written := 0;
    while written < |data|
      invariant 0 <= written <= |data| && fs.view == start.view && wrote
      invariant AfterWrites(calls, next, |data| - written) == AfterWrites(calls, 1, |data|)
      invariant Staged(before, fs, tmp, File(data[..written], false))
      invariant NeverMoved(before, trace, n)
    {
      var m := calls(next);
      next := next + 1;
      if m == 0 { return false, fs, next, trace, File(data[..written], false); }
      var to := Min(written + m, |data|);
      assert data[..written] + data[written..to] == data[..to];
      fs := Append(fs, before.next, data[written..to]);
      PreparedUnmoved(before, fs, tmp, [Link(tmp, before.next)], n);
      trace := trace + [fs];
      written := to;
    }
    f := File(data[..written], false);
    assert data[..written] == data;
  }

  /** Steps 1 and 2: create, write (possibly in pieces), sync, close. */
  method WriteTemp(before: Fs, tmp: Name, data: Bytes, opts: WriteOptions, calls: nat -> nat, ghost n: Name)
    returns (made: bool, wrote: bool, fs: Fs, next: nat, ghost trace: seq<Fs>)
    requires WellFormed(before) && Unused(before, tmp) && n != tmp
    ensures NeverMoved(before, trace, n)
    ensures !made ==> fs == before && !wrote
    ensures made ==> exists f :: Staged(before, fs, tmp, f) && (wrote ==> f == File(data, opts.fsyncData))
    ensures fs.view == if made then before.view[tmp := before.next] else before.view
    ensures RenameCall(calls, |data|, opts) == if made && wrote then Some(next) else None
  {
    fs, trace, next := before, [], 1;
    if calls(0) == 0 { return false, false, fs, next, trace; }
    made, wrote := true, true;
    var ino := fs.next;
    fs := Open(fs, tmp);
    assert Staged(before, fs, tmp, File([], false));
    PreparedUnmoved(before, fs, tmp, [Link(tmp, ino)], n);
    trace := trace + [fs];
    ghost var more;
    ghost var f;
    wrote, fs, next, more, f := WriteAll(before, fs, tmp, data, calls, n);
    trace := trace + more;
    if wrote && opts.fsyncData {
      if calls(next) == 0 {
        wrote := false;
      } else {
        fs := SyncData(fs, ino);
        f := File(data, true);
        PreparedUnmoved(before, fs, tmp, [Link(tmp, ino)], n);
        trace := trace + [fs];
      }
      next := next + 1;
    }
    if calls(next) == 0 { wrote := false; }
    next := next + 1;
    assert Staged(before, fs, tmp, f);
  }

  /** Best-effort removal of the temporary file on the error paths. */
  method Discard(before: Fs, mid: Fs, tmp: Name, removed: bool, ghost n: Name) returns (fs: Fs)
    requires WellFormed(before) && n != tmp
    requires exists f :: Staged(before, mid, tmp, f)
    ensures Unmoved(before, fs, n)
    ensures fs.view == if removed then mid.view - {tmp} else mid.view
  {
    fs := if removed then Remove(mid, tmp) else mid;
    ghost var extra := if removed then [Link(tmp, before.next), Unlink(tmp)] else [Link(tmp, before.next)];
    assert fs.pending == before.pending + extra;
    PreparedUnmoved(before, fs, tmp, extra, n);
  }

  lemma Concatenated(before: Fs, a: seq<Fs>, b: seq<Fs>, n: Name, data: Bytes)
    requires AlwaysOldOrNew(before, a, n, data)
    ensures AlwaysOldOrNew(before, a + b, n, data) <==> AlwaysOldOrNew(before, b, n, data)
  {
    if AlwaysOldOrNew(before, a + b, n, data) {
      forall j | 0 <= j < |b| ensures OldOrNew(before, b[j], n, data) {
        assert (a + b)[|a| + j] == b[j];
      }
    }
  }

  /** Steps 3 and 4: rename, sync the directory. */
  method Publish(before: Fs, mid: Fs, tmp: Name, path: string, data: Bytes, opts: WriteOptions, dirSynced: bool)
    returns (ok: bool, fs: Fs, ghost trace: seq<Fs>)
    requires WellFormed(before) && Path(path) != tmp
    requires Staged(before, mid, tmp, File(data, opts.fsyncData)) && tmp !in before.view
    requires mid.view == before.view[tmp := before.next]
    ensures Renamed(before, fs, path) && Shows(before, fs, path, data)
    ensures ok <==> opts.fsyncDir && HasParent(path) ==> dirSynced
    ensures AlwaysOldOrNew(before, trace, Path(path), data) <==> opts.fsyncData
    ensures ok ==>
      (Durable(fs, Path(path), data) <==>
        opts.fsyncData && ((opts.fsyncDir && HasParent(path)) || Durable(before, Path(path), data)))
  {
    var target := Path(path);
    RenameShows(before, mid, tmp, path, File(data, opts.fsyncData));
    fs := Rename(mid, tmp, target);
    trace := [fs];
    if opts.fsyncData {
      SwapOldOrNew(before, mid, tmp, target, data);
      SwapDurableIff(before, mid, tmp, target, data);
    } else {
      SwapTears(before, mid, tmp, File(data, false), target, data);
      assert !OldOrNew(before, trace[0], target, data);
    }
    if opts.fsyncDir && HasParent(path) {
      if !dirSynced { return false, fs, trace; }
      fs := SyncDir(fs);
      trace := trace + [fs];
      assert trace[0] == Rename(mid, tmp, target);
    }
    ok := true;
  }

  /** Atomicity holds at every crash point exactly if the data is synced before the rename, or
      the pattern of failing calls keeps the rename from happening.  After Ok the new content is
      durable exactly if the data was synced and either the directory was, which needs a path with
      a slash, or no crash could have shown anything else before the call.  A call that fails before
      the rename changes nothing but perhaps leaves the temporary file; without failing calls the
      result is Ok. */
  method AtomicWriteFile(before: Fs, path: string, suffix: string, data: Bytes, opts: WriteOptions, calls: nat -> nat)
    returns (ok: bool, fs: Fs, ghost trace: seq<Fs>)
    requires WellFormed(before) && Unused(before, TempFor(path, suffix))
    ensures AlwaysOldOrNew(before, trace, Path(path), data) <==>
      opts.fsyncData || !ReachesRename(calls, |data|, opts)
    ensures Renamed(before, fs, path) <==> ReachesRename(calls, |data|, opts)
    ensures Renamed(before, fs, path) ==> Shows(before, fs, path, data)
    ensures !Renamed(before, fs, path) ==> fs.view - {TempFor(path, suffix)} == before.view
    ensures ok ==> Renamed(before, fs, path)
    ensures (forall k: nat :: calls(k) > 0) ==> ok
    ensures ok ==>
      (Durable(fs, Path(path), data) <==>
        opts.fsyncData && ((opts.fsyncDir && HasParent(path)) || Durable(before, Path(path), data)))
    ensures !ReachesRename(calls, |data|, opts) ==> Unmoved(before, fs, Path(path))
  {
    var target, tmp := Path(path), TempFor(path, suffix);
    assert (forall k: nat :: calls(k) > 0) ==> ReachesRename(calls, |data|, opts) by {
      if forall k: nat :: calls(k) > 0 { WritesSucceed(calls, 1, |data|); }
    }
    var made, wrote, next;
    made, wrote, fs, next, trace := WriteTemp(before, tmp, data, opts, calls, target);
    ok := false;
    if !made {
      NeverMovedFine(before, trace, target, data);
      return;
    }
    if !wrote || calls(next) == 0 {
      fs := Discard(before, fs, tmp, calls(next + 1) > 0, target);
      trace := trace + [fs];
      NeverMovedFine(before, trace, target, data);
      return;
    }
    ghost var more;
    ok, fs, more := Publish(before, fs, tmp, path, data, opts, calls(next + 1) > 0 && calls(next + 2) > 0);
    NeverMovedFine(before, trace, target, data);
    Concatenated(before, trace, more, target, data);
    trace := trace + more;
  }

  const EMPTY_DISK := Fs(map[], map[], map[], [], 0)

  /** The state in which a call for path "f" with both syncs on returns Ok, on an empty disk. */
  function BareResult(data: Bytes): Fs {
    var tmp := TempFor("f", "1");
    Rename(SyncData(Append(Open(EMPTY_DISK, tmp), 0, data), 0), tmp, Path("f"))
  }

  /** A path without a slash is not durable although directory sync was asked for. */
  lemma BarePathNotDurable(data: Bytes)
    ensures !HasParent("f") && !Durable(BareResult(data), Path("f"), data)
  {
    var tmp := TempFor("f", "1");
    var mid := SyncData(Append(Open(EMPTY_DISK, tmp), 0, data), 0);
    assert mid.files[0].data == [] + data == data;
    assert Staged(EMPTY_DISK, mid, tmp, File(data, true));
    SwapDurableIff(EMPTY_DISK, mid, tmp, Path("f"), data);
    assert At(Survive(EMPTY_DISK, Crash({}, map[])), Path("f")) == None;
  }
}
