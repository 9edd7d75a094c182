/**
  The group-commit reference writer and its four write/sync/rename protocols (gcwriter.cpp).
  Every system call and every printed COMMIT appends a crash point to the trace; the results
  are about all crashes at all crash points, for every number of files, every positive batch
  size and every pattern of failing or short calls.
*/
module GroupCommit {
  import opened Base
  import opened CrashFs

  const PAYLOAD: nat := 4096

  /** FillPayload, with the 32-bit product of the index and the 64-bit sum. */
  function Payload(idx: nat): (b: Bytes)
    ensures |b| == PAYLOAD
  {
    seq(PAYLOAD, i requires 0 <= i < PAYLOAD =>
      ((idx * 1315423911 % 0x1_0000_0000 + i * 2654435761) / 8192 % 256) as Byte)
  }

  /** A crash point: the disk, and how many files the printed COMMITs cover. */
  datatype Point = Point(fs: Fs, promised: nat)

  function Leftovers(img: map<Name, Bytes>): set<Name> { set n | n in img && n.Temp? }

  /** After the crash: visible files are complete, promised files are there, and at most one
      batch of temporary files remains. */
  ghost predicate Intact(img: map<Name, Bytes>, promised: nat, batch: nat) {
    && (forall n | n in img && n.Final? :: img[n] == Payload(n.i))
    && (forall i: nat | i < promised :: Final(i) in img)
    && |Leftovers(img)| <= batch
  }

  ghost predicate Safe(pt: Point, batch: nat) {
    forall k: Crash :: Intact(Survive(pt.fs, k), pt.promised, batch)
  }

  ghost predicate AllSafe(trace: seq<Point>, batch: nat) {
    forall j | 0 <= j < |trace| :: Safe(trace[j], batch)
  }

  // ---------------------------------------------------------------------------
  //  Why a state is safe
  // ---------------------------------------------------------------------------

  /** File i is complete on disk. */
  ghost predicate Stored(files: map<nat, File>, i: nat) { i in files && files[i] == File(Payload(i), true) }

  /** Inode numbers follow file indices; final names only for stored files; temporary names
      only for the current batch, which starts at lo. */
  ghost predicate Good(fs: Fs, batch: nat, lo: nat, n: Name, ino: nat) {
    && !n.Path? && ino == n.i
    && (n.Final? ==> Stored(fs.files, n.i))
    && (n.Temp? ==> lo <= n.i < lo + batch)
  }

  ghost predicate GoodEffect(fs: Fs, batch: nat, lo: nat, e: Effect) {
    if e.Link? then Good(fs, batch, lo, e.name, e.ino) else e.name.Temp?
  }

  ghost predicate Sound(fs: Fs, batch: nat, lo: nat, promised: nat) {
    && (forall n | n in fs.dir :: Good(fs, batch, lo, n, fs.dir[n]))
    && (forall e | e in fs.pending :: GoodEffect(fs, batch, lo, e))
    && (forall i: nat | i < promised :: Final(i) in fs.dir)
  }

  /** The running processes see: final names of the first `done` files, temporary names of
      files done..made, nothing else. */
  ghost predicate Sees(fs: Fs, done: nat, made: nat) {
    && done <= made == fs.next
    && (forall i: nat | i < done :: Final(i) in fs.view)
    && (forall i: nat | done <= i < made :: Temp(i) in fs.view)
    && (forall n | n in fs.view ::
          && !n.Path? && fs.view[n] == n.i
          && (n.Final? ==> n.i < done && Stored(fs.files, n.i))
          && (n.Temp? ==> done <= n.i < made))
    && (forall i: nat :: i in fs.files <==> i < made)
  }

  lemma {:induction false} IntervalSize(s: set<Name>, lo: nat, size: nat)
    requires forall n | n in s :: n.Temp? && lo <= n.i < lo + size
    ensures |s| <= size
    decreases size
  {
    if size > 0 {
      var last := Temp(lo + size - 1);
      IntervalSize(s - {last}, lo, size - 1);
    } else {
      assert s == {};
    }
  }

  lemma SoundSafe(fs: Fs, batch: nat, lo: nat, promised: nat)
    requires Sound(fs, batch, lo, promised)
    ensures Safe(Point(fs, promised), batch)
  {
    forall k: Crash ensures Intact(Survive(fs, k), promised, batch) {
      var d := Replay(fs.dir, fs.pending, k.keep);
      var img := Survive(fs, k);
      forall n | n in img ensures Good(fs, batch, lo, n, d[n]) {
        Origin(fs.dir, fs.pending, k.keep, n);
        if Link(n, d[n]) in fs.pending { assert GoodEffect(fs, batch, lo, Link(n, d[n])); }
      }
      forall i: nat | i < promised ensures Final(i) in img {
        assert !GoodEffect(fs, batch, lo, Unlink(Final(i)));
        Persists(fs.dir, fs.pending, k.keep, Final(i));
      }
      IntervalSize(Leftovers(img), lo, batch);
    }
  }

  // What each system call does to Sound and Sees.

  /** Touching a file that is not stored yet disturbs nothing. */
  ghost predicate Elsewhere(fs: Fs, t: Fs) {
    forall i: nat | Stored(fs.files, i) :: Stored(t.files, i)
  }

  lemma SoundElsewhere(fs: Fs, t: Fs, batch: nat, lo: nat, promised: nat)
    requires Sound(fs, batch, lo, promised) && Elsewhere(fs, t)
    requires t.dir == fs.dir && t.pending == fs.pending
    ensures Sound(t, batch, lo, promised)
  {
    forall n | n in t.dir ensures Good(t, batch, lo, n, t.dir[n]) {
      assert Good(fs, batch, lo, n, fs.dir[n]);
    }
    forall e | e in t.pending ensures GoodEffect(t, batch, lo, e) {
      assert GoodEffect(fs, batch, lo, e);
    }
  }

  lemma SeesElsewhere(fs: Fs, t: Fs, done: nat, made: nat)
    requires Sees(fs, done, made) && Elsewhere(fs, t)
    requires t.view == fs.view && t.next == fs.next && t.files.Keys == fs.files.Keys
    ensures Sees(t, done, made)
  {}

  lemma Opens(fs: Fs, batch: nat, lo: nat, promised: nat, done: nat, made: nat)
    requires Sound(fs, batch, lo, promised) && Sees(fs, done, made) && lo <= made < lo + batch
    ensures Sound(Open(fs, Temp(made)), batch, lo, promised)
    ensures Sees(Open(fs, Temp(made)), done, made + 1)
    ensures Open(fs, Temp(made)).files[made].data == []
  {
    var t := Open(fs, Temp(made));
    assert Temp(made) !in fs.view;
    assert made !in fs.files;
    var u := fs.(files := t.files);
    SoundElsewhere(fs, u, batch, lo, promised);
    forall e | e in t.pending ensures GoodEffect(t, batch, lo, e) {
      if e in fs.pending { assert GoodEffect(u, batch, lo, e); }
    }
    forall n | n in t.dir ensures Good(t, batch, lo, n, t.dir[n]) {
      assert Good(u, batch, lo, n, u.dir[n]);
    }
  }

  /** Appending to, or syncing, a file that has no final name yet. */
  lemma Touches(fs: Fs, t: Fs, batch: nat, lo: nat, promised: nat, done: nat, made: nat, f: File)
    requires Sound(fs, batch, lo, promised) && Sees(fs, done, made) && done < made
    requires !Stored(fs.files, made - 1)
    requires t == fs.(files := fs.files[made - 1 := f])
    ensures Sound(t, batch, lo, promised) && Sees(t, done, made)
  {
    SoundElsewhere(fs, t, batch, lo, promised);
    SeesElsewhere(fs, t, done, made);
  }

  /** Renaming the oldest temporary file, if it is stored. */
  lemma Renames(fs: Fs, batch: nat, lo: nat, promised: nat, done: nat, made: nat)
    requires Sound(fs, batch, lo, promised) && Sees(fs, done, made)
    requires done < made && Stored(fs.files, done)
    ensures Sound(Rename(fs, Temp(done), Final(done)), batch, lo, promised)
    ensures Sees(Rename(fs, Temp(done), Final(done)), done + 1, made)
  {
    var t := Rename(fs, Temp(done), Final(done));
    forall e | e in t.pending ensures GoodEffect(t, batch, lo, e) {
      if e in fs.pending { assert GoodEffect(fs, batch, lo, e); }
    }
    forall n | n in t.dir ensures Good(t, batch, lo, n, t.dir[n]) {
      assert Good(fs, batch, lo, n, fs.dir[n]);
    }
  }

  /** After a directory sync everything seen is durable: the batch may start anew at `done`,
      and all finished files may be promised. */
  lemma SyncsDir(fs: Fs, batch: nat, done: nat, made: nat)
    requires Sees(fs, done, made) && made <= done + batch
    ensures Sound(SyncDir(fs), batch, done, done) && Sees(SyncDir(fs), done, made)
  {
    var t := SyncDir(fs);
    forall n | n in t.dir ensures Good(t, batch, done, n, t.dir[n]) {}
  }

  lemma SyncsAll(fs: Fs, batch: nat, done: nat, made: nat)
    requires Sees(fs, done, made) && made <= done + batch
    ensures Sound(SyncAll(fs), batch, done, done) && Sees(SyncAll(fs), done, made)
    ensures forall i | 0 <= i < made && fs.files[i].data == Payload(i) :: Stored(SyncAll(fs).files, i)
  {
    var t := SyncAll(fs);
    SyncsDir(fs, batch, done, made);
    SoundElsewhere(SyncDir(fs), t, batch, done, done);
    SeesElsewhere(SyncDir(fs), t, done, made);
  }

  // ---------------------------------------------------------------------------
  //  Why a state is not safe
  // ---------------------------------------------------------------------------

  /** A visible final name whose data was never synced may show anything after a crash. */
  lemma Exposed(fs: Fs, i: nat, promised: nat, batch: nat)
    requires Coherent(fs) && fs.dir == map[] && fs.pending != []
    requires Final(i) in fs.view && fs.view[Final(i)] in fs.files && !fs.files[fs.view[Final(i)]].synced
    ensures !Safe(Point(fs, promised), batch)
  {
    var k := Crash(Upto(|fs.pending|), map[]);
    LosingNothing(fs.dir, fs.pending, k.keep);
    var img := Survive(fs, k);
    assert img[Final(i)] == [] != Payload(i);
    assert !Intact(img, promised, batch);
  }

  /** A first file, written and not synced. */
  function Unsynced(idx: nat): Fs {
    Fs(map[0 := File(Payload(idx), false)], map[Temp(idx) := 0], map[], [Link(Temp(idx), 0)], 1)
  }

  /** Giving it its final name exposes it. */
  lemma RenameExposes(idx: nat, promised: nat, batch: nat)
    ensures !Safe(Point(Rename(Unsynced(idx), Temp(idx), Final(idx)), promised), batch)
  {
    var t := Rename(Unsynced(idx), Temp(idx), Final(idx));
    LatestExtends(map[], [], Link(Temp(idx), 0));
    CallsKeepCoherent(Unsynced(idx), Temp(idx), Final(idx));
    Exposed(t, idx, promised, batch);
  }

  /** So does writing the final file in place. */
  lemma OpenExposes(idx: nat, promised: nat, batch: nat)
    ensures !Safe(Point(Open(BLANK, Final(idx)), promised), batch)
  {
    CallsKeepCoherent(BLANK, Final(idx), Final(idx));
    Exposed(Open(BLANK, Final(idx)), idx, promised, batch);
  }

  /** An unsafe crash point stays in the trace. */
  lemma StaysUnsafe(before: seq<Point>, after: seq<Point>, batch: nat)
    requires before <= after && !AllSafe(before, batch)
    ensures !AllSafe(after, batch)
  {
    var j :| 0 <= j < |before| && !Safe(before[j], batch);
    assert after[j] == before[j];
  }

  const BLANK := Fs(map[], map[], map[], [], 0)

  /** Does the first file get its final name?  The program stops at the first failing call. */
  predicate Appears(protocol: int, calls: nat -> nat) {
    calls(0) > 0 && (protocol == 9 || (calls(1) >= PAYLOAD && calls(2) > 0))
  }

  /** The multiples of the batch size up to n: the COMMITs while the first n files are written. */
  function Full(batch: nat, n: nat): seq<nat>
    requires batch > 0
  {
    if n == 0 then [] else Full(batch, n - 1) + if n % batch == 0 then [n] else []
  }

  lemma OneMore(q: nat, batch: nat)
    ensures (q + 1) * batch == q * batch + batch
  {}

  lemma {:induction false} Larger(a: nat, b: nat, q: nat, r: nat, batch: nat)
    requires a > q && r < batch
    ensures a * batch + b > q * batch + r
    decreases a
  {
    OneMore(a - 1, batch);
    if a > q + 1 { Larger(a - 1, b, q, r, batch); }
  }

  lemma SameRemainder(a: nat, b: nat, q: nat, r: nat, batch: nat)
    requires a * batch + b == q * batch + r && b < batch && r < batch
    ensures b == r
  {
    if a > q {
      Larger(a, b, q, r, batch);
    } else if a < q {
      Larger(q, r, a, b, batch);
    }
  }

  lemma Divided(n: nat, batch: nat) returns (q: nat)
    requires batch > 0
    ensures n == q * batch + n % batch && n % batch < batch
  {
    q := n / batch;
  }

  lemma NextModulo(i: nat, batch: nat)
    requires batch > 0
    ensures (i + 1) % batch == if i % batch + 1 == batch then 0 else i % batch + 1
  {
    var q := Divided(i, batch);
    var a := Divided(i + 1, batch);
    OneMore(q, batch);
    if i % batch + 1 == batch {
      SameRemainder(a, (i + 1) % batch, q + 1, 0, batch);
    } else {
      SameRemainder(a, (i + 1) % batch, q, i % batch + 1, batch);
    }
  }

  /** A further batch, the last of which may be short. */
  lemma {:induction false} FullBatch(batch: nat, start: nat, n: nat)
    requires batch > 0 && start % batch == 0 && n <= batch
    ensures Full(batch, start + n) == Full(batch, start) + if n == batch then [start + n] else []
    ensures n < batch ==> (start + n) % batch == n
    ensures n == batch ==> (start + n) % batch == 0
    decreases n
  {
    if n > 0 {
      FullBatch(batch, start, n - 1);
      NextModulo(start + n - 1, batch);
    }
  }

  /** No call fails and no write is short. */
  ghost predicate AllWork(calls: nat -> nat) { forall k: nat :: calls(k) >= PAYLOAD }

  /** The protocols that sync data before it becomes visible. */
  predicate Orderly(protocol: int) { protocol == 1 || protocol == 2 || protocol == 4 }

  class Writer {
    const protocol: int
    const batch: nat
    /** What each open, write and rename returns: 0 for failure, bytes written for write. */
    const calls: nat -> nat
    var fs: Fs
    var promised: nat
    var call: nat
    var needSyncfs: bool
    ghost var trace: seq<Point>
    /** How many files each printed COMMIT covers. */
    ghost var commits: seq<nat>

    constructor (protocol: int, batch: nat, calls: nat -> nat)
      requires batch > 0
      ensures this.protocol == protocol && this.batch == batch && this.calls == calls
      ensures fs == BLANK && promised == 0 && call == 0 && !needSyncfs && trace == [] && commits == []
    {
      this.protocol, this.batch, this.calls := protocol, batch, calls;
      fs, promised, call, needSyncfs, trace, commits := BLANK, 0, 0, false, [], [];
    }

    /** The first lo files are durable, the first `done` have their final name, files up to
        `made` exist; every crash point so far is safe. */
    ghost predicate Tidy(lo: nat, done: nat, made: nat)
      reads this
    {
      && Sound(fs, batch, lo, lo) && Sees(fs, done, made) && promised <= lo <= done
      && AllSafe(trace, batch)
    }

    /** A system call has changed the disk to t: a new crash point. */
    method Set(t: Fs, ghost tidy: bool, ghost lo: nat)
      requires tidy ==> Sound(t, batch, lo, lo) && promised <= lo && AllSafe(trace, batch)
      modifies this`fs, this`trace
      ensures fs == t && trace == old(trace) + [Point(t, promised)]
      ensures tidy ==> AllSafe(trace, batch)
    {
      if tidy {
        assert Sound(t, batch, lo, promised);
        SoundSafe(t, batch, lo, promised);
      }
      fs := t;
      trace := trace + [Point(t, promised)];
    }

    method Next() returns (n: nat)
      modifies this`call
      ensures n == calls(old(call)) && call == old(call) + 1
    {
      n := calls(call);
      call := call + 1;
    }

    /** Create the temporary file and write the payload; `tidy` says whether the state is known
        to be tidy (it no longer is after protocol 3 has renamed a file). */
    method WriteTmpOnly(idx: nat, ghost tidy: bool, ghost lo: nat, ghost done: nat) returns (ok: bool)
      requires tidy ==> Tidy(lo, done, idx) && idx < lo + batch
      modifies this`fs, this`trace, this`call
      ensures old(trace) <= trace
      ensures tidy ==> AllSafe(trace, batch)
      ensures tidy && ok ==> Tidy(lo, done, idx + 1)
      ensures tidy && ok ==> fs.files == old(fs.files)[idx := File(Payload(idx), false)]
      ensures old(fs) == BLANK && ok ==> fs == Unsynced(idx)
      ensures ok <==> calls(old(call)) > 0 && calls(old(call) + 1) >= PAYLOAD
      ensures ok ==> Temp(idx) in fs.view && call == old(call) + 2
    {
      var fd := Next();
      if fd == 0 { return false; }
      if tidy { Opens(fs, batch, lo, lo, done, idx); }
      var ino := Open(fs, Temp(idx)).view[Temp(idx)];
      Set(Open(fs, Temp(idx)), tidy, lo);
      var n := Next();
      var more := if n < PAYLOAD then Payload(idx)[..n] else Payload(idx);
      var t := Append(fs, ino, more);
      if tidy { Touches(fs, t, batch, lo, lo, done, idx + 1, File([] + more, false)); }
      Set(t, tidy, lo);
      ok := n >= PAYLOAD;
      assert [] + more == more;
    }

    /** Protocol 9: write the final file directly, in two halves. */
    method WriteInPlace(idx: nat) returns (ok: bool)
      modifies this`fs, this`trace, this`call
      ensures old(trace) <= trace
      ensures calls(old(call)) == 0 ==> !ok && trace == old(trace)
      ensures calls(old(call)) > 0 && old(fs) == BLANK ==>
        |old(trace)| < |trace| && !Safe(trace[|old(trace)|], batch)
      ensures AllWork(calls) ==> ok
    {
      var fd := Next();
      if fd == 0 { return false; }
      var ino := Open(fs, Final(idx)).view[Final(idx)];
      Set(Open(fs, Final(idx)), false, 0);
      OpenExposes(idx, promised, batch);
      var half := PAYLOAD / 2;
      var n := Next();
      Set(Append(fs, ino, Payload(idx)[..if n < half then n else half]), false, 0);
      if n < half { return false; }
      n := Next();
      Set(Append(fs, ino, Payload(idx)[half..][..if n < half then n else half]), false, 0);
      return n >= half;
    }

    /** The rename; afterwards protocol 1 syncs the directory. */
    method Publish(idx: nat, ghost lo: nat) returns (ok: bool)
      requires protocol != 4
      requires Orderly(protocol) ==> Tidy(lo, idx, idx + 1) && idx < lo + batch && Stored(fs.files, idx)
      modifies this`fs, this`trace, this`call, this`needSyncfs
      ensures old(trace) <= trace && (ok <==> calls(old(call)) > 0)
      ensures !ok ==> trace == old(trace)
      ensures protocol == 2 && ok ==> needSyncfs
      ensures Orderly(protocol) ==> AllSafe(trace, batch)
      ensures Orderly(protocol) && ok ==> Tidy(if protocol == 1 then idx + 1 else lo, idx + 1, idx + 1)
      ensures !Orderly(protocol) && old(fs) == Unsynced(idx) && ok ==> !AllSafe(trace, batch)
    {
      var n := Next();
      if n == 0 { return false; }
      ok := true;
      if Orderly(protocol) {
        Renames(fs, batch, lo, lo, idx, idx + 1);
      } else {
        RenameExposes(idx, promised, batch);
      }
      Set(Rename(fs, Temp(idx), Final(idx)), Orderly(protocol), lo);
      assert trace[|trace| - 1] == Point(fs, promised);
      if protocol == 1 {
        SyncsDir(fs, batch, idx + 1, idx + 1);
        Set(SyncDir(fs), true, idx + 1);
      } else if protocol == 2 || protocol == 3 {
        needSyncfs := true;
      }
    }

    /** Write one file and give it its final name.  Orderly protocols keep the state tidy; with
        the others the first file to get its final name is exposed. */
    method WriteOne(idx: nat, ghost lo: nat) returns (ok: bool)
      requires protocol != 4
      requires Orderly(protocol) || idx == 0 ==> Tidy(lo, idx, idx) && idx < lo + batch
      requires !Orderly(protocol) && idx == 0 ==> fs == BLANK && call == 0
      modifies this`fs, this`trace, this`call, this`needSyncfs
      ensures old(trace) <= trace
      ensures protocol == 2 && ok ==> needSyncfs
      ensures Orderly(protocol) ==> AllSafe(trace, batch)
      ensures Orderly(protocol) && ok ==> Tidy(if protocol == 1 then idx + 1 else lo, idx + 1, idx + 1)
      ensures !Orderly(protocol) && idx == 0 ==> (AllSafe(trace, batch) <==> !Appears(protocol, calls))
      ensures !Orderly(protocol) && idx == 0 && ok ==> Appears(protocol, calls)
      ensures AllWork(calls) ==> ok
    {
      if protocol == 9 {
        ghost var first := |trace|;
        ok := WriteInPlace(idx);
        assert idx == 0 && Appears(protocol, calls) ==> !Safe(trace[first], batch);
        return;
      }
      ok := WriteTmpOnly(idx, Orderly(protocol) || idx == 0, lo, idx);
      if !ok { return; }
      if protocol == 1 || protocol == 2 {
        var t := SyncData(fs, fs.view[Temp(idx)]);
        Touches(fs, t, batch, lo, lo, idx, idx + 1, File(Payload(idx), true));
        Set(t, true, lo);
      }
      ok := Publish(idx, lo);
    }

    /** printf("COMMIT n-1") */
    method Promise(n: nat, ghost tidy: bool, ghost lo: nat)
      requires tidy ==> Sound(fs, batch, lo, lo) && n <= lo && AllSafe(trace, batch)
      modifies this`fs, this`promised, this`trace, this`commits
      ensures promised == n && fs == old(fs) && old(trace) <= trace
      ensures commits == old(commits) + [n] && trace != [] && trace[|trace| - 1] == Point(fs, n)
      ensures tidy ==> AllSafe(trace, batch)
    {
      promised := n;
      commits := commits + [n];
      Set(fs, tidy, lo);
    }

    /** Make the renames of the batch durable, then promise them. */
    method CommitBatch(done: nat, ghost lo: nat)
      requires protocol != 4
      requires Orderly(protocol) || done == 0 ==> Tidy(lo, done, done)
      requires protocol == 1 ==> lo == done
      requires protocol == 2 && !needSyncfs ==> done == 0
      modifies this`fs, this`trace, this`needSyncfs, this`promised, this`commits
      ensures old(trace) <= trace && promised == done
      ensures commits == old(commits) + [done] && trace != [] && trace[|trace| - 1] == Point(fs, done)
      ensures protocol == 2 ==> needSyncfs == old(needSyncfs)
      ensures Orderly(protocol) || done == 0 ==> Tidy(done, done, done)
    {
      ghost var tidy := Orderly(protocol) || done == 0;
      if protocol == 2 {
        if needSyncfs {
          SyncsDir(fs, batch, done, done);
          Set(SyncDir(fs), true, done);
        }
      } else if protocol == 3 {
        if done == 0 { SyncsAll(fs, batch, 0, 0); }
        Set(SyncAll(fs), tidy, done);
        needSyncfs := false;
      }
      Promise(done, tidy, done);
    }

    /** Commit if the batch is full; `left` is what is in the batch then. */
    method EndBatch(i: nat, inBatch: nat, ghost lo: nat) returns (left: nat, ghost from: nat)
      requires protocol != 4 && i > 0 && 0 < inBatch <= batch
      requires Orderly(protocol) ==> Tidy(lo, i, i)
      requires protocol == 1 ==> lo == i
      requires protocol == 2 ==> needSyncfs && i - lo == inBatch
      modifies this`fs, this`trace, this`needSyncfs, this`promised, this`commits
      ensures old(trace) <= trace && left == (if inBatch == batch then 0 else inBatch)
      ensures Orderly(protocol) ==> Tidy(from, i, i)
      ensures protocol == 1 ==> from == i
      ensures protocol == 2 ==> needSyncfs && i - from == left
      ensures commits == old(commits) + if inBatch == batch then [i] else []
    {
      left, from := inBatch, lo;
      if inBatch >= batch {
        CommitBatch(i, lo);
        left, from := 0, i;
      }
    }

    /** i files are written, the last `inBatch` of them since the latest COMMIT. */
    ghost predicate Writing(i: nat, inBatch: nat, lo: nat)
      reads this
      requires batch > 0
    {
      && inBatch == i % batch && commits == Full(batch, i)
      && (protocol == 2 ==> i - lo == inBatch && (i > 0 ==> needSyncfs))
      && (protocol == 1 ==> i == lo)
      && (Orderly(protocol) || i == 0 ==> Tidy(lo, i, i))
      && (i == 0 ==> fs == BLANK && call == 0)
      && (!Orderly(protocol) && i > 0 ==> Appears(protocol, calls) && !AllSafe(trace, batch))
    }

    /** One iteration: write a file, commit if the batch is full. */
    method OneFile(i: nat, inBatch: nat, ghost lo: nat) returns (ok: bool, left: nat, ghost from: nat)
      requires protocol != 4 && batch > 0 && Writing(i, inBatch, lo)
      modifies this`fs, this`trace, this`call, this`needSyncfs, this`promised, this`commits
      ensures ok ==> Writing(i + 1, left, from)
      ensures !ok ==> (AllSafe(trace, batch) <==> Orderly(protocol) || !Appears(protocol, calls))
      ensures AllWork(calls) ==> ok
    {
      left, from := inBatch, lo;
      ghost var before := trace;
      ok := WriteOne(i, lo);
      if !Orderly(protocol) && i > 0 { StaysUnsafe(before, trace, batch); }
      if !ok { return; }
      NextModulo(i, batch);
      before := trace;
      left, from := EndBatch(i + 1, inBatch + 1, if protocol == 1 then i + 1 else lo);
      if !Orderly(protocol) { StaysUnsafe(before, trace, batch); }
    }

    /** All protocols but 4: write file after file, commit whenever a batch is full. */
    method RunOneByOne(total: nat) returns (ok: bool)
      requires protocol != 4 && batch > 0
      requires fs == BLANK && promised == 0 && call == 0 && !needSyncfs && trace == [] && commits == []
      modifies this
      ensures AllSafe(trace, batch) <==> Orderly(protocol) || total == 0 || !Appears(protocol, calls)
      ensures ok ==> promised == total && trace != [] && trace[|trace| - 1] == Point(fs, total)
      ensures ok ==> commits == Full(batch, total) + [total]
      ensures AllWork(calls) ==> ok
    {
      var inBatch: nat := 0;
      var i: nat := 0;
      ghost var lo: nat := 0;
      while i < total
        invariant i <= total && Writing(i, inBatch, lo)
      {
        ok, inBatch, lo := OneFile(i, inBatch, lo);
        if !ok { return; }
        i := i + 1;
      }
      ghost var before := trace;
      CommitBatch(total, lo);
      if !Orderly(protocol) && total > 0 { StaysUnsafe(before, trace, batch); }
      ok := true;
    }

    /** Files lo..made have been written in full. */
    ghost predicate Filled(lo: nat, made: nat)
      reads this
    {
      forall i: nat | lo <= i < made :: i in fs.files && fs.files[i].data == Payload(i)
    }

    method WriteNext(ghost start: nat, idx: nat) returns (ok: bool)
      requires start <= idx < start + batch && Tidy(start, start, idx) && Filled(start, idx)
      modifies this`fs, this`trace, this`call
      ensures AllSafe(trace, batch)
      ensures ok ==> Tidy(start, start, idx + 1) && Filled(start, idx + 1)
      ensures AllWork(calls) ==> ok
    {
      ok := WriteTmpOnly(idx, true, start, start);
    }

    method WriteBatch(start: nat, n: nat) returns (ok: bool)
      requires Tidy(start, start, start) && n <= batch
      modifies this`fs, this`trace, this`call
      ensures AllSafe(trace, batch)
      ensures ok ==> Tidy(start, start, start + n) && Filled(start, start + n)
      ensures AllWork(calls) ==> ok
    {
      var k := 0;
      while k < n
        invariant 0 <= k <= n && Tidy(start, start, start + k) && Filled(start, start + k)
      {
        ok := WriteNext(start, start + k);
        if !ok { return; }
        k := k + 1;
      }
      ok := true;
    }

    method RenameNext(ghost start: nat, done: nat, ghost made: nat) returns (ok: bool)
      requires Tidy(start, done, made) && done < made && Stored(fs.files, done)
      modifies this`fs, this`trace, this`call
      ensures AllSafe(trace, batch) && fs.files == old(fs.files)
      ensures ok ==> Tidy(start, done + 1, made)
      ensures AllWork(calls) ==> ok
    {
      var r := Next();
      if r == 0 { return false; }
      Renames(fs, batch, start, start, done, made);
      Set(Rename(fs, Temp(done), Final(done)), true, start);
      ok := true;
    }

    method RenameBatch(start: nat, n: nat) returns (ok: bool)
      requires Tidy(start, start, start + n)
      requires forall i: nat | start <= i < start + n :: Stored(fs.files, i)
      modifies this`fs, this`trace, this`call
      ensures AllSafe(trace, batch)
      ensures ok ==> Tidy(start, start + n, start + n)
      ensures AllWork(calls) ==> ok
    {
      var k := 0;
      while k < n
        invariant 0 <= k <= n && Tidy(start, start + k, start + n) && fs.files == old(fs.files)
      {
        ok := RenameNext(start, start + k, start + n);
        if !ok { return; }
        k := k + 1;
      }
      ok := true;
    }

    /** Make the renames of a batch of protocol 4 durable, then promise them. */
    method SealBatch(end: nat, ghost start: nat)
      requires Tidy(start, end, end)
      modifies this`fs, this`trace, this`promised, this`commits
      ensures AllSafe(trace, batch) && promised == end && Tidy(end, end, end)
      ensures commits == old(commits) + [end] && trace != [] && trace[|trace| - 1] == Point(fs, end)
    {
      SyncsDir(fs, batch, end, end);
      Set(SyncDir(fs), true, end);
      Promise(end, true, end);
    }

    /** One batch of protocol 4: all temporary files, one syncfs, all renames, one fsync of the
        directory, then the promise. */
    method RunBatch(start: nat, n: nat) returns (ok: bool)
      requires Tidy(start, start, start) && n <= batch
      modifies this`fs, this`trace, this`call, this`promised, this`commits
      ensures AllSafe(trace, batch)
      ensures ok ==> promised == start + n && Tidy(start + n, start + n, start + n)
      ensures ok ==> commits == old(commits) + [start + n] && trace != [] && trace[|trace| - 1] == Point(fs, start + n)
      ensures AllWork(calls) ==> ok
    {
      ok := WriteBatch(start, n);
      if !ok { return; }
      SyncsAll(fs, batch, start, start + n);
      Set(SyncAll(fs), true, start);
      ok := RenameBatch(start, n);
      if !ok { return; }
      SealBatch(start + n, start);
    }

    /** The first n files are durable and promised; there was a COMMIT after each full batch, and
        one at the end if the last batch is short. */
    ghost predicate Sealed(n: nat)
      reads this
      requires batch > 0
    {
      && promised == n && Tidy(n, n, n)
      && (n > 0 ==> trace != [] && trace[|trace| - 1] == Point(fs, n))
      && commits == Full(batch, n) + if n % batch == 0 then [] else [n]
    }

    method NextBatch(start: nat, n: nat) returns (ok: bool)
      requires batch > 0 && Sealed(start) && start % batch == 0 && 0 < n <= batch
      modifies this`fs, this`trace, this`call, this`promised, this`commits
      ensures AllSafe(trace, batch)
      ensures ok ==> Sealed(start + n) && (n == batch ==> (start + n) % batch == 0)
      ensures AllWork(calls) ==> ok
    {
      FullBatch(batch, start, n);
      ok := RunBatch(start, n);
    }

    method RunTwoPhase(total: nat) returns (ok: bool)
      requires protocol == 4 && batch > 0
      requires fs == BLANK && promised == 0 && call == 0 && trace == [] && commits == []
      modifies this
      ensures AllSafe(trace, batch)
      ensures ok ==> Sealed(total)
      ensures AllWork(calls) ==> ok
    {
      var start: nat := 0;
      while start < total
        invariant Sealed(Min(start, total)) && (start <= total ==> start % batch == 0)
        decreases total - start
      {
        ok := NextBatch(start, if start + batch <= total then batch else total - start);
        if !ok { return; }
        start := start + batch;
      }
      ok := true;
    }

    /** Crash safety of the whole program: it holds exactly for the protocols that sync data
        before the rename, unless no file ever gets its final name.  A run that succeeds has
        promised every file, after each full batch and at the end; it succeeds if no call fails. */
    method Run(total: int) returns (ok: bool)
      requires batch > 0
      requires fs == BLANK && promised == 0 && call == 0 && !needSyncfs && trace == [] && commits == []
      modifies this
      ensures AllSafe(trace, batch) <==> Orderly(protocol) || total <= 0 || !Appears(protocol, calls)
      ensures ok ==> promised == Max(total, 0)
      ensures ok && total > 0 ==> trace != [] && trace[|trace| - 1] == Point(fs, total)
      ensures ok && total >= 0 ==>
        commits == Full(batch, total) + if protocol == 4 && total % batch == 0 then [] else [total]
      ensures AllWork(calls) ==> ok
    {
      var files := Max(total, 0);
      if protocol == 4 { ok := RunTwoPhase(files); } else { ok := RunOneByOne(files); }
    }
  }
}
