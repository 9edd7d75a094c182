/**
  A file system with volatile and durable state.  Directory changes and file data stay volatile
  until they are synced; a crash keeps an arbitrary subset of the un-synced directory changes
  and puts arbitrary bytes into every file whose data was not synced.
*/
module CrashFs {
  import opened Base

  /** Directory entries: the files of the group-commit writer, and general paths. */
  datatype Name = Final(i: nat) | Temp(i: nat) | Path(p: string)

  datatype Effect = Link(name: Name, ino: nat) | Unlink(name: Name)

  datatype File = File(data: Bytes, synced: bool)

  datatype Fs = Fs(
    files: map<nat, File>,    // by inode
    view: map<Name, nat>,     // the directory as processes see it
    dir: map<Name, nat>,      // the directory as of the last sync
    pending: seq<Effect>,     // what happened to it since, in order
    next: nat)                // next inode number

  /** What a crash does: which pending effects survive, what un-synced files contain. */
  datatype Crash = Crash(keep: set<nat>, junk: map<nat, Bytes>)

  function Do(d: map<Name, nat>, e: Effect): map<Name, nat> {
    match e
    case Link(n, ino) => d[n := ino]
    case Unlink(n) => d - {n}
  }

  function Replay(d: map<Name, nat>, pending: seq<Effect>, keep: set<nat>): map<Name, nat>
    decreases |pending|
  {
    if pending == [] then d
    else
      var n := |pending| - 1;
      var before := Replay(d, pending[..n], keep);
      if n in keep then Do(before, pending[n]) else before
  }

  function DataAfter(fs: Fs, k: Crash, ino: nat): Bytes {
    if ino in fs.files && fs.files[ino].synced then fs.files[ino].data
    else if ino in k.junk then k.junk[ino] else []
  }

  /** The files found after crash k. */
  function Survive(fs: Fs, k: Crash): map<Name, Bytes> {
    var d := Replay(fs.dir, fs.pending, k.keep);
    map n | n in d :: DataAfter(fs, k, d[n])
  }

  // System calls.  Those that fail leave the state unchanged.

  /** open(O_CREAT | O_WRONLY | O_TRUNC) */
  function Open(fs: Fs, n: Name): Fs {
    if n in fs.view then fs.(files := fs.files[fs.view[n] := File([], false)])
    else fs.(files := fs.files[fs.next := File([], false)],
             view := fs.view[n := fs.next],
             pending := fs.pending + [Link(n, fs.next)],
             next := fs.next + 1)
  }

  function Append(fs: Fs, ino: nat, more: Bytes): Fs {
    if ino in fs.files then fs.(files := fs.files[ino := File(fs.files[ino].data + more, false)]) else fs
  }

  function SyncData(fs: Fs, ino: nat): Fs {
    if ino in fs.files then fs.(files := fs.files[ino := File(fs.files[ino].data, true)]) else fs
  }

  /** The two halves of a rename may survive a crash separately. */
  function Rename(fs: Fs, from: Name, to: Name): Fs {
    if from in fs.view && from != to then
      fs.(view := fs.view[to := fs.view[from]] - {from},
          pending := fs.pending + [Link(to, fs.view[from]), Unlink(from)])
    else fs
  }

  function Remove(fs: Fs, n: Name): Fs {
    fs.(view := fs.view - {n}, pending := fs.pending + [Unlink(n)])
  }

  function SyncDir(fs: Fs): Fs { fs.(dir := fs.view, pending := []) }

  function SyncAll(fs: Fs): Fs {
    SyncDir(fs).(files := map i | i in fs.files :: File(fs.files[i].data, true))
  }

  /** A name that survives was there at the last sync, or its creation survived. */
  lemma {:induction false} Origin(d: map<Name, nat>, pending: seq<Effect>, keep: set<nat>, n: Name)
    requires n in Replay(d, pending, keep)
    ensures var r := Replay(d, pending, keep);
      (n in d && r[n] == d[n]) || Link(n, r[n]) in pending
    decreases |pending|
  {
    if pending != [] {
      var m := |pending| - 1;
      var before := Replay(d, pending[..m], keep);
      if n in before && Replay(d, pending, keep)[n] == before[n] {
        Origin(d, pending[..m], keep, n);
        if Link(n, before[n]) in pending[..m] { assert Link(n, before[n]) in pending; }
      } else {
        assert pending[m] == Link(n, Replay(d, pending, keep)[n]);
      }
    }
  }

  /** A synced name that nobody removed since survives. */
  lemma {:induction false} Persists(d: map<Name, nat>, pending: seq<Effect>, keep: set<nat>, n: Name)
    requires n in d && Unlink(n) !in pending
    ensures n in Replay(d, pending, keep)
    decreases |pending|
  {
    if pending != [] {
      var m := |pending| - 1;
      assert pending[m] in pending;
      Persists(d, pending[..m], keep, n);
    }
  }

  function Upto(n: nat): (s: set<nat>)
    ensures forall j: nat :: j in s <==> j < n
  {
    if n == 0 then {} else Upto(n - 1) + {n - 1}
  }

  function Latest(d: map<Name, nat>, pending: seq<Effect>): map<Name, nat>
    decreases |pending|
  {
    if pending == [] then d
    else Do(Latest(d, pending[..|pending| - 1]), pending[|pending| - 1])
  }

  /** The view is the synced directory with everything that happened since. */
  predicate Coherent(fs: Fs) { fs.view == Latest(fs.dir, fs.pending) }

  lemma LatestExtends(d: map<Name, nat>, pending: seq<Effect>, e: Effect)
    ensures Latest(d, pending + [e]) == Do(Latest(d, pending), e)
  {
    assert (pending + [e])[..|pending|] == pending;
  }

  lemma CallsKeepCoherent(fs: Fs, n: Name, m: Name)
    requires Coherent(fs)
    ensures Coherent(Open(fs, n)) && Coherent(Rename(fs, n, m)) && Coherent(Remove(fs, n))
    ensures Coherent(SyncDir(fs)) && Coherent(SyncAll(fs))
  {
    LatestExtends(fs.dir, fs.pending, Link(n, fs.next));
    LatestExtends(fs.dir, fs.pending, Unlink(n));
    if n in fs.view && n != m {
      var p := fs.pending + [Link(m, fs.view[n])];
      LatestExtends(fs.dir, fs.pending, Link(m, fs.view[n]));
      LatestExtends(fs.dir, p, Unlink(n));
      assert p + [Unlink(n)] == Rename(fs, n, m).pending;
    }
  }

  /** A crash that loses nothing leaves exactly the view. */
  lemma {:induction false} LosingNothing(d: map<Name, nat>, pending: seq<Effect>, keep: set<nat>)
    requires forall i: nat | i < |pending| :: i in keep
    ensures Replay(d, pending, keep) == Latest(d, pending)
    decreases |pending|
  {
    if pending != [] { LosingNothing(d, pending[..|pending| - 1], keep); }
  }
}
