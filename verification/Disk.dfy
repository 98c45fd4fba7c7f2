/** Store.Save and Store.Load (internal/config/store.go) over a file system
    that can lose power between any two calls.

    A file's data survives a crash only if it was synced; a directory change
    survives only if the directory was synced after it, and until then a crash
    may find any of the directories since the last sync. Rename is atomic. */
module Disk {
  import opened Basics
  import C = Configs

  type Name = string

  // ---------- The file system ----------

  datatype Disk = Disk(
    data: map<nat, string>,        // contents by inode
    synced: set<nat>,              // inodes whose contents are durable
    dirs: seq<map<Name, nat>>)     // the directory since its last sync, newest last

  ghost predicate Wf(d: Disk) {
    && d.dirs != []
    && forall k, n :: 0 <= k < |d.dirs| && n in d.dirs[k] ==> d.dirs[k][n] in d.data
  }

  function Dir(d: Disk): map<Name, nat> {
    if d.dirs == [] then map[] else Last(d.dirs)
  }

  /** What a running program reads at a path. */
  function Read(d: Disk, path: Name): Option<string> {
    if path in Dir(d) && Dir(d)[path] in d.data then Some(d.data[Dir(d)[path]]) else None
  }

  /** `found` may be at the path after a crash; unsynced data may be anything. */
  ghost predicate MayFind(d: Disk, path: Name, found: Option<string>) {
    exists k :: 0 <= k < |d.dirs| && FoundIn(d, d.dirs[k], path, found)
  }

  predicate FoundIn(d: Disk, dir: map<Name, nat>, path: Name, found: Option<string>) {
    if path !in dir then found.None?
    else found.Some? && (dir[path] in d.synced && dir[path] in d.data ==> found.value == d.data[dir[path]])
  }

  /** Whatever the path may lead to after a crash, it is a synced file. */
  ghost predicate Complete(d: Disk, path: Name) {
    forall k :: 0 <= k < |d.dirs| && path in d.dirs[k] ==> d.dirs[k][path] in d.synced && d.dirs[k][path] in d.data
  }

  function Change(d: Disk, dir: map<Name, nat>): Disk {
    d.(dirs := d.dirs + [dir])
  }

  function Create(d: Disk, name: Name, inode: nat): Disk {
    Change(d.(data := d.data[inode := ""], synced := d.synced - {inode}), Dir(d)[name := inode])
  }

  function Append(d: Disk, inode: nat, text: string): Disk {
    if inode in d.data then d.(data := d.data[inode := d.data[inode] + text], synced := d.synced - {inode}) else d
  }

  function SyncFile(d: Disk, inode: nat): Disk {
    d.(synced := d.synced + {inode})
  }

  function Remove(d: Disk, name: Name): Disk {
    if name in Dir(d) then Change(d, Dir(d) - {name}) else d
  }

  function Rename(d: Disk, from: Name, to: Name): Disk {
    if from in Dir(d) then Change(d, (Dir(d) - {from})[to := Dir(d)[from]]) else d
  }

  function SyncDir(d: Disk): Disk {
    d.(dirs := [Dir(d)])
  }

  // ---------- Save ----------

  /** Which calls fail. A failing write leaves a prefix of the text. */
  datatype Faults = Faults(
    mkdir: bool, create: bool, write: Option<nat>, sync: bool, close: bool, chmod: bool,
    rename: bool, remove: bool, openDir: bool, syncDir: bool)

  /** One call of Save: the temporary name and inode it gets, and its faults. */
  datatype Attempt = Attempt(tmp: Name, inode: nat, faults: Faults)

  predicate Usable(d: Disk, path: Name, a: Attempt) {
    a.inode !in d.data && a.inode !in d.synced && a.tmp != path
  }

  /** The states of the disk after each call that Save makes, in order. */
  function SaveSteps(d: Disk, path: Name, doc: string, a: Attempt): seq<Disk> {
    var f := a.faults;
    if f.mkdir || f.create || a.tmp in Dir(d) then []
    else
      var created := Create(d, a.tmp, a.inode);
      var written := Append(created, a.inode,
                            match f.write
                            case None => doc
                            case Some(n) => if n <= |doc| then doc[..n] else doc);
      if f.write.Some? || f.sync then [created, written, Cleanup(written, a)]
      else
        var synced := SyncFile(written, a.inode);
        if f.close || f.chmod || f.rename then [created, written, synced, Cleanup(synced, a)]
        else
          var renamed := Rename(synced, a.tmp, path);
          [created, written, synced, renamed, if f.openDir || f.syncDir then renamed else SyncDir(renamed)]
  }

  /** The deferred os.Remove of the temporary file. */
  function Cleanup(d: Disk, a: Attempt): Disk {
    if a.faults.remove then d else Remove(d, a.tmp)
  }

  predicate SaveFails(d: Disk, a: Attempt) {
    var f := a.faults;
    f.mkdir || f.create || a.tmp in Dir(d) || f.write.Some? || f.sync || f.close || f.chmod || f.rename
  }

  function AfterSave(d: Disk, path: Name, doc: string, a: Attempt): Disk {
    var s := SaveSteps(d, path, doc, a);
    if s == [] then d else Last(s)
  }

  // ---------- The file system as an object ----------

  class FileSystem {
    var disk: Disk
    ghost var trace: seq<Disk>   // the states after each call so far

    constructor (disk: Disk)
      ensures this.disk == disk && trace == []
    {
      this.disk, trace := disk, [];
    }

    method Call(next: Disk)
      modifies this
      ensures disk == next && trace == old(trace) + [next]
    {
      disk := next;
      trace := trace + [next];
    }
  }

  class Store {
    const path: Name

    constructor (path: Name)
      ensures this.path == path
    {
      this.path := path;
    }

    /** Save. `encode` is json.MarshalIndent; true is success. */
    method Save(fs: FileSystem, isIP: string -> bool, encode: C.Config -> string, cfg: C.Config, a: Attempt)
      returns (ok: bool)
      requires Usable(fs.disk, path, a)
      modifies fs
      ensures ok == (C.ValidConfig(isIP, cfg) && !SaveFails(old(fs.disk), a))
      ensures C.ValidConfig(isIP, cfg) ==>
        fs.trace == old(fs.trace) + SaveSteps(old(fs.disk), path, encode(cfg), a)
      ensures !C.ValidConfig(isIP, cfg) ==> fs.trace == old(fs.trace)
      ensures fs.disk ==
        if C.ValidConfig(isIP, cfg) then AfterSave(old(fs.disk), path, encode(cfg), a) else old(fs.disk)
    {
      var problem := C.Validate(isIP, cfg);
      if problem.Some? { return false; }
      var f := a.faults;
      if f.mkdir { return false; }
      var b := encode(cfg);
      if f.create || a.tmp in Dir(fs.disk) { return false; }
      fs.Call(Create(fs.disk, a.tmp, a.inode));
      var text := match f.write
        case None => b
        case Some(n) => if n <= |b| then b[..n] else b;
      fs.Call(Append(fs.disk, a.inode, text));
      if f.write.Some? || f.sync {
        fs.Call(Cleanup(fs.disk, a));
        return false;
      }
      fs.Call(SyncFile(fs.disk, a.inode));
      if f.close || f.chmod || f.rename {
        fs.Call(Cleanup(fs.disk, a));
        return false;
      }
      fs.Call(Rename(fs.disk, a.tmp, path));
      fs.Call(if f.openDir || f.syncDir then fs.disk else SyncDir(fs.disk));
      return true;
    }

    /** Load. `unreadable` is a read error other than a missing file; `hash` is
        bcrypt's output for the factory password, None when it fails. */
    method Load(
        fs: FileSystem, isIP: string -> bool, encode: C.Config -> string, decode: string -> Option<C.Config>,
        hash: Option<string>, unreadable: bool, a: Attempt)
      returns (cfg: Option<C.Config>)
      requires Usable(fs.disk, path, a)
      modifies fs
      ensures var found := Read(old(fs.disk), path);
        if found.Some? then
          && fs.disk == old(fs.disk)
          && cfg == if !unreadable && Accepted(isIP, decode, found.value) then decode(found.value) else None
        else if hash.None? then fs.disk == old(fs.disk) && cfg == None
        else
          && cfg == (if SaveFails(old(fs.disk), a) then None else Some(C.Seeded(hash.value)))
          && fs.disk == AfterSave(old(fs.disk), path, encode(C.Seeded(hash.value)), a)
    {
      var b := Read(fs.disk, path);
      if b.None? {
        if hash.None? { return None; }
        SeedIsValid(isIP, hash.value);
        var ok := Save(fs, isIP, encode, C.Seeded(hash.value), a);
        return if ok then Some(C.Seeded(hash.value)) else None;
      }
      if unreadable { return None; }
      var parsed := decode(b.value);
      if parsed.None? { return None; }
      var problem := C.Validate(isIP, parsed.value);
      return if problem.None? then parsed else None;
    }
  }

  /** Save never refuses the seeded document. */
  lemma SeedIsValid(isIP: string -> bool, hash: string)
    ensures C.ValidConfig(isIP, C.Seeded(hash))
  {
  }

  /** The text is a document that Load takes. */
  ghost predicate Accepted(isIP: string -> bool, decode: string -> Option<C.Config>, text: string) {
    decode(text).Some? && C.ValidConfig(isIP, decode(text).value)
  }

  // ---------- Crash safety ----------

  /** What a step of Save may do: keep every outcome of a crash, or add the
      outcome that the whole new document is there. */
  ghost predicate Safe(d: Disk, t: Disk, path: Name, doc: string) {
    && Wf(t) && Complete(t, path)
    && forall found :: MayFind(t, path, found) ==> MayFind(d, path, found) || found == Some(doc)
  }

  /** Until the rename, only the temporary file changes: the path leads where
      it led before, now and after a crash. */
  ghost predicate Aside(d: Disk, t: Disk, path: Name, a: Attempt) {
    && Wf(t) && |d.dirs| <= |t.dirs|
    && (forall i :: i in d.data ==> i in t.data && t.data[i] == d.data[i] && (i in t.synced <==> i in d.synced))
    && (forall k :: 0 <= k < |d.dirs| ==> t.dirs[k] == d.dirs[k])
    && (forall k :: |d.dirs| <= k < |t.dirs| ==> t.dirs[k] - {a.tmp} == Dir(d) - {a.tmp})
  }

  lemma AsideIsSafe(d: Disk, t: Disk, path: Name, a: Attempt)
    requires Wf(d) && Complete(d, path) && Usable(d, path, a) && Aside(d, t, path, a)
    ensures Complete(t, path)
    ensures forall found :: MayFind(t, path, found) <==> MayFind(d, path, found)
    ensures Read(t, path) == Read(d, path)
  {
    forall k | 0 <= k < |t.dirs|
      ensures var j := if k < |d.dirs| then k else |d.dirs| - 1;
        && (path in t.dirs[k] <==> path in d.dirs[j])
        && (path in t.dirs[k] ==> t.dirs[k][path] == d.dirs[j][path])
        && forall found :: FoundIn(t, t.dirs[k], path, found) <==> FoundIn(d, d.dirs[j], path, found)
    {
      SamePath(t.dirs[k], Dir(d), path, a.tmp);
    }
    forall found | MayFind(d, path, found)
      ensures MayFind(t, path, found)
    {
      var k :| 0 <= k < |d.dirs| && FoundIn(d, d.dirs[k], path, found);
      assert FoundIn(t, t.dirs[k], path, found);
    }
  }

  lemma SamePath(m: map<Name, nat>, n: map<Name, nat>, path: Name, tmp: Name)
    requires path != tmp
    ensures m - {tmp} == n - {tmp} ==> (path in m <==> path in n) && (path in m ==> m[path] == n[path])
  {
    assert path in m <==> path in m - {tmp};
    assert path in n <==> path in n - {tmp};
    assert path in m ==> (m - {tmp})[path] == m[path];
    assert path in n ==> (n - {tmp})[path] == n[path];
  }

  lemma AsideCreate(d: Disk, path: Name, a: Attempt)
    requires Wf(d) && Usable(d, path, a)
    ensures Aside(d, Create(d, a.tmp, a.inode), path, a)
  {
    assert Dir(d)[a.tmp := a.inode] - {a.tmp} == Dir(d) - {a.tmp};
  }

  lemma AsideMore(d: Disk, t: Disk, path: Name, a: Attempt, text: string)
    requires Wf(d) && Usable(d, path, a) && Aside(d, t, path, a)
    ensures Aside(d, Append(t, a.inode, text), path, a)
    ensures Aside(d, SyncFile(t, a.inode), path, a)
    ensures Aside(d, Cleanup(t, a), path, a)
  {
    assert (Dir(t) - {a.tmp}) - {a.tmp} == Dir(t) - {a.tmp};
  }

  /** After the rename a crash finds what it found before, or the new document. */
  lemma RenameIsSafe(d: Disk, t: Disk, path: Name, doc: string, a: Attempt)
    requires Wf(d) && Complete(d, path) && Usable(d, path, a) && Aside(d, t, path, a)
    requires a.tmp in Dir(t) && Dir(t)[a.tmp] == a.inode
    requires a.inode in t.synced && a.inode in t.data && t.data[a.inode] == doc
    ensures var r := Rename(t, a.tmp, path);
      && Safe(d, r, path, doc) && Read(r, path) == Some(doc)
      && (forall found :: MayFind(d, path, found) ==> MayFind(r, path, found))
      && (forall found :: MayFind(SyncDir(r), path, found) <==> found == Some(doc))
      && Complete(SyncDir(r), path) && Wf(SyncDir(r)) && Read(SyncDir(r), path) == Some(doc)
      && Dir(r) - {path} == Dir(d) - {a.tmp} - {path}
  {
    AsideIsSafe(d, t, path, a);
    var r := Rename(t, a.tmp, path);
    assert Dir(r)[path] == a.inode;
    forall found | MayFind(r, path, found)
      ensures MayFind(d, path, found) || found == Some(doc)
    {
      var k :| 0 <= k < |r.dirs| && FoundIn(r, r.dirs[k], path, found);
      if k < |t.dirs| {
        assert FoundIn(t, t.dirs[k], path, found);
        assert MayFind(t, path, found);
      }
    }
    forall found | MayFind(d, path, found)
      ensures MayFind(r, path, found)
    {
      assert MayFind(t, path, found);
      var k :| 0 <= k < |t.dirs| && FoundIn(t, t.dirs[k], path, found);
      assert FoundIn(r, r.dirs[k], path, found);
    }
    var s := SyncDir(r);
    assert FoundIn(s, s.dirs[0], path, Some(doc));
    assert Dir(t) - {a.tmp} == Dir(d) - {a.tmp};
    assert Dir(r) - {path} == Dir(t) - {a.tmp} - {path};
  }

  /** The crash theorem for one Save: at every point the path leads to a whole
      old document or to the whole new one; an error leaves everything at the
      path as it was, now and after a crash; success shows the new document,
      and if the directory sync took effect a crash can find nothing else. */
  lemma SaveIsCrashSafe(d: Disk, path: Name, doc: string, a: Attempt)
    requires Wf(d) && Complete(d, path) && Usable(d, path, a)
    ensures forall t :: t in SaveSteps(d, path, doc, a) ==> Safe(d, t, path, doc)
    ensures var t := AfterSave(d, path, doc, a);
      && Wf(t) && Complete(t, path)
      && (SaveFails(d, a) ==>
            && Read(t, path) == Read(d, path)
            && forall found :: MayFind(t, path, found) <==> MayFind(d, path, found))
      && (!SaveFails(d, a) ==>
            && Read(t, path) == Some(doc)
            && if a.faults.openDir || a.faults.syncDir
               then forall found :: MayFind(t, path, found) <==> MayFind(d, path, found) || found == Some(doc)
               else forall found :: MayFind(t, path, found) <==> found == Some(doc))
  {
    hide Wf, Complete, MayFind, Aside, Create, Append, SyncFile, Rename, SyncDir, Cleanup, Read;
    if a.faults.mkdir || a.faults.create || a.tmp in Dir(d) {
    } else {
      var f := a.faults;
      var text := match f.write
        case None => doc
        case Some(n) => if n <= |doc| then doc[..n] else doc;
      var created := Create(d, a.tmp, a.inode);
      var written := Append(created, a.inode, text);
      var synced := SyncFile(written, a.inode);
      AsideCreate(d, path, a);
      AsideMore(d, created, path, a, text);
      AsideMore(d, written, path, a, "");
      AsideMore(d, synced, path, a, "");
      AsideSafe(d, created, path, doc, a);
      AsideSafe(d, written, path, doc, a);
      AsideSafe(d, synced, path, doc, a);
      AsideSafe(d, Cleanup(written, a), path, doc, a);
      AsideSafe(d, Cleanup(synced, a), path, doc, a);
      if f.write.None? {
        TempFile(d, a.tmp, a.inode, doc);
        RenameIsSafe(d, synced, path, doc, a);
        NowFindable(d, Rename(synced, a.tmp, path), path, doc);
        SyncSafe(d, Rename(synced, a.tmp, path), path, doc);
      }
    }
  }

  lemma AsideSafe(d: Disk, t: Disk, path: Name, doc: string, a: Attempt)
    requires Wf(d) && Complete(d, path) && Usable(d, path, a) && Aside(d, t, path, a)
    ensures Safe(d, t, path, doc) && Complete(t, path) && Wf(t)
    ensures forall found :: MayFind(t, path, found) <==> MayFind(d, path, found)
    ensures Read(t, path) == Read(d, path)
  {
    AsideIsSafe(d, t, path, a);
  }

  lemma TempFile(d: Disk, tmp: Name, inode: nat, doc: string)
    ensures var t := SyncFile(Append(Create(d, tmp, inode), inode, doc), inode);
      tmp in Dir(t) && Dir(t)[tmp] == inode && inode in t.synced && inode in t.data && t.data[inode] == doc
  {
    assert "" + doc == doc;
  }

  lemma NowFindable(d: Disk, r: Disk, path: Name, doc: string)
    requires Safe(d, r, path, doc) && Read(r, path) == Some(doc)
    ensures MayFind(r, path, Some(doc))
  {
    assert FoundIn(r, r.dirs[|r.dirs| - 1], path, Some(doc));
  }

  lemma SyncSafe(d: Disk, r: Disk, path: Name, doc: string)
    requires forall found :: MayFind(SyncDir(r), path, found) <==> found == Some(doc)
    requires Complete(SyncDir(r), path) && Wf(SyncDir(r))
    ensures Safe(d, SyncDir(r), path, doc)
  {
  }

  /** When Save succeeds, exactly, and what can be read then: the new document if
      every call up to the rename worked and the temporary name was free, and
      otherwise what could be read before. The directory sync does not matter. */
  lemma SaveSucceedsIff(d: Disk, path: Name, doc: string, a: Attempt)
    requires Wf(d) && Complete(d, path) && Usable(d, path, a)
    ensures var f := a.faults;
      var ok := !f.mkdir && !f.create && a.tmp !in Dir(d) && f.write.None?
        && !f.sync && !f.close && !f.chmod && !f.rename;
      && (SaveFails(d, a) <==> !ok)
      && Read(AfterSave(d, path, doc, a), path) == if ok then Some(doc) else Read(d, path)
  {
    SaveIsCrashSafe(d, path, doc, a);
    hide AfterSave, Read, Wf, Complete;
  }

  /** No temporary file is left behind: after a successful Save, or a failed
      one whose clean-up works, the directory holds what it held, and the
      document. */
  lemma NoLeftovers(d: Disk, path: Name, doc: string, a: Attempt)
    requires Wf(d) && Complete(d, path) && Usable(d, path, a) && a.tmp !in Dir(d) && !a.faults.remove
    ensures Dir(AfterSave(d, path, doc, a)).Keys == Dir(d).Keys + if SaveFails(d, a) then {} else {path}
  {
    assert Dir(d)[a.tmp := a.inode] - {a.tmp} == Dir(d);
  }

  // ---------- Any number of saves ----------

  datatype Saving = Saving(doc: string, a: Attempt)

  function SaveAll(d: Disk, path: Name, ss: seq<Saving>): Disk {
    if ss == [] then d else AfterSave(SaveAll(d, path, Init(ss)), path, Last(ss).doc, Last(ss).a)
  }

  ghost predicate AllUsable(d: Disk, path: Name, ss: seq<Saving>) {
    ss == [] || (AllUsable(d, path, Init(ss)) && Usable(SaveAll(d, path, Init(ss)), path, Last(ss).a))
  }

  predicate Succeeds(d: Disk, path: Name, ss: seq<Saving>, k: nat)
    requires k < |ss|
  {
    !SaveFails(SaveAll(d, path, ss[..k]), ss[k].a)
  }

  /** Save `k` succeeded and its directory sync took effect. */
  predicate Settles(d: Disk, path: Name, ss: seq<Saving>, k: nat)
    requires k < |ss|
  {
    Succeeds(d, path, ss, k) && !ss[k].a.faults.openDir && !ss[k].a.faults.syncDir
  }

  ghost predicate Unsettled(d: Disk, path: Name, ss: seq<Saving>, from: nat) {
    forall k: nat :: from <= k < |ss| ==> !Settles(d, path, ss, k)
  }

  /** `found` was saved by `ss[k]`, and no later save has settled. */
  ghost predicate SavedBy(d: Disk, path: Name, ss: seq<Saving>, k: nat, found: Option<string>)
    requires k < |ss|
  {
    Succeeds(d, path, ss, k) && found == Some(ss[k].doc) && Unsettled(d, path, ss, k + 1)
  }

  ghost predicate Candidate(d: Disk, path: Name, ss: seq<Saving>, found: Option<string>) {
    || (exists k: nat :: k < |ss| && SavedBy(d, path, ss, k, found))
    || (MayFind(d, path, found) && Unsettled(d, path, ss, 0))
  }

  lemma InitSaves(d: Disk, path: Name, ss: seq<Saving>)
    requires ss != []
    ensures forall k: nat :: k < |ss| - 1 ==> (Succeeds(d, path, Init(ss), k) <==> Succeeds(d, path, ss, k))
    ensures forall k: nat :: k < |ss| - 1 ==> (Settles(d, path, Init(ss), k) <==> Settles(d, path, ss, k))
    ensures Succeeds(d, path, ss, |ss| - 1) <==> !SaveFails(SaveAll(d, path, Init(ss)), Last(ss).a)
  {
    assert forall k :: 0 <= k < |ss| ==> Init(ss)[..k] == ss[..k];
  }

  lemma CandidateStep(d: Disk, path: Name, ss: seq<Saving>, found: Option<string>)
    requires ss != []
    ensures var n := |ss| - 1;
      Candidate(d, path, ss, found) <==>
        || (Succeeds(d, path, ss, n) && found == Some(Last(ss).doc))
        || (Candidate(d, path, Init(ss), found) && !Settles(d, path, ss, n))
  {
    hide Succeeds, Settles, MayFind, SaveAll;
    InitSaves(d, path, ss);
    var n := |ss| - 1;
    assert forall from: nat :: from <= n ==>
      (Unsettled(d, path, ss, from) <==> Unsettled(d, path, Init(ss), from) && !Settles(d, path, ss, n));
    assert Unsettled(d, path, ss, n + 1);
    forall k: nat | k < n
      ensures SavedBy(d, path, ss, k, found) <==> SavedBy(d, path, Init(ss), k, found) && !Settles(d, path, ss, n)
    {
    }
    if Candidate(d, path, Init(ss), found) && !Settles(d, path, ss, n) {
      if k: nat :| k < n && SavedBy(d, path, Init(ss), k, found) {
        assert SavedBy(d, path, ss, k, found);
      }
    }
    if Succeeds(d, path, ss, n) && found == Some(Last(ss).doc) {
      assert SavedBy(d, path, ss, n, found);
    }
  }

  /** After any sequence of saves, failed or not, a crash finds exactly one of
      the whole documents saved since the last save that settled, that one
      included; a failed save is never found. */
  lemma {:induction false} CrashFindsARecentDocument(d: Disk, path: Name, ss: seq<Saving>)
    requires Wf(d) && Complete(d, path) && AllUsable(d, path, ss)
    ensures Wf(SaveAll(d, path, ss)) && Complete(SaveAll(d, path, ss), path)
    ensures forall found :: MayFind(SaveAll(d, path, ss), path, found) <==> Candidate(d, path, ss, found)
  {
    hide Wf, Complete, MayFind, SaveSteps, AfterSave, SaveFails;
    if ss == [] {
    } else {
      CrashFindsARecentDocument(d, path, Init(ss));
      SaveIsCrashSafe(SaveAll(d, path, Init(ss)), path, Last(ss).doc, Last(ss).a);
      forall found
        ensures MayFind(SaveAll(d, path, ss), path, found) <==> Candidate(d, path, ss, found)
      {
        CandidateStep(d, path, ss, found);
        hide Candidate;
        InitSaves(d, path, ss);
      }
    }
  }

  // ---------- Restart ----------

  ghost predicate RoundTrips(encode: C.Config -> string, decode: string -> Option<C.Config>) {
    forall c :: decode(encode(c)) == Some(c)
  }

  /** A power cut at any moment of a Save is harmless: what the next start
      reads is accepted, and is the old configuration or the new one. */
  lemma RestartAfterCrash(
    d: Disk, path: Name, a: Attempt, isIP: string -> bool, encode: C.Config -> string,
    decode: string -> Option<C.Config>, oldCfg: C.Config, newCfg: C.Config, t: Disk, found: Option<string>)
    requires RoundTrips(encode, decode) && C.ValidConfig(isIP, oldCfg) && C.ValidConfig(isIP, newCfg)
    requires Wf(d) && Complete(d, path) && Usable(d, path, a)
    requires forall x :: MayFind(d, path, x) <==> x == Some(encode(oldCfg))
    requires t == d || t in SaveSteps(d, path, encode(newCfg), a)
    requires MayFind(t, path, found)
    ensures found.Some? && Accepted(isIP, decode, found.value)
    ensures decode(found.value) == Some(oldCfg) || decode(found.value) == Some(newCfg)
  {
    SaveIsCrashSafe(d, path, encode(newCfg), a);
  }

  /** After a first boot every later start, a crash in between included if the
      directory was synced, reads the seeded document: restarting does not get
      around the forced password change. */
  lemma FirstBootPersists(
    d: Disk, path: Name, a: Attempt, isIP: string -> bool, encode: C.Config -> string,
    decode: string -> Option<C.Config>, hash: string, found: Option<string>)
    requires RoundTrips(encode, decode) && Wf(d) && Complete(d, path) && Usable(d, path, a) && !SaveFails(d, a)
    requires var t := AfterSave(d, path, encode(C.Seeded(hash)), a);
      found == Read(t, path) || (MayFind(t, path, found) && !a.faults.openDir && !a.faults.syncDir)
    ensures found.Some? && Accepted(isIP, decode, found.value)
    ensures decode(found.value) == Some(C.Seeded(hash)) && C.Seeded(hash).auth.mustChange
  {
    SaveIsCrashSafe(d, path, encode(C.Seeded(hash)), a);
    SeedIsValid(isIP, hash);
  }
}
