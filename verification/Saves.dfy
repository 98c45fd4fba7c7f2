/** Any number of Saves on one path at the same time (internal/config/store.go
    takes no lock): their calls interleave in any order, and the power may go
    between any two. Each has its own temporary name and inode, as
    os.CreateTemp gives them. */
module Saves {
  import opened Basics
  import opened Disk
  import C = Configs

  /** The next call of a Save. AtRemove is the deferred os.Remove. */
  datatype Pc = AtCreate | AtWrite | AtSync | AtRename | AtDirSync | AtRemove(ok: bool) | Finished(ok: bool)

  datatype Saver = Saver(doc: string, a: Attempt, pc: Pc)

  /** What matters afterwards: a document was renamed into place, or the
      directory was synced. */
  datatype Note = Put(id: nat, doc: string) | Settled(id: nat)

  datatype World = World(disk: Disk, savers: map<nat, Saver>, notes: seq<Note>)

  datatype Action = Begin(id: nat, doc: string, a: Attempt) | Call(id: nat)

  // ---------- Steps ----------

  function Text(s: Saver): string {
    match s.a.faults.write
    case None => s.doc
    case Some(n) => if n <= |s.doc| then s.doc[..n] else s.doc
  }

  predicate CreateFails(d: Disk, a: Attempt) {
    a.faults.mkdir || a.faults.create || a.tmp in Dir(d)
  }

  predicate RenameFails(a: Attempt) {
    a.faults.close || a.faults.chmod || a.faults.rename
  }

  predicate DirSyncFails(a: Attempt) {
    a.faults.openDir || a.faults.syncDir
  }

  function DiskAfter(d: Disk, path: Name, s: Saver): Disk {
    match s.pc
    case AtCreate => if CreateFails(d, s.a) then d else Create(d, s.a.tmp, s.a.inode)
    case AtWrite => Append(d, s.a.inode, Text(s))
    case AtSync => if s.a.faults.sync then d else SyncFile(d, s.a.inode)
    case AtRename => if RenameFails(s.a) then d else Rename(d, s.a.tmp, path)
    case AtDirSync => if DirSyncFails(s.a) then d else SyncDir(d)
    case AtRemove(_) => Cleanup(d, s.a)
    case Finished(_) => d
  }

  function PcAfter(d: Disk, s: Saver): Pc {
    match s.pc
    case AtCreate => if CreateFails(d, s.a) then Finished(false) else AtWrite
    case AtWrite => if s.a.faults.write.Some? then AtRemove(false) else AtSync
    case AtSync => if s.a.faults.sync then AtRemove(false) else AtRename
    case AtRename => if RenameFails(s.a) then AtRemove(false) else AtDirSync
    case AtDirSync => AtRemove(true)
    case AtRemove(ok) => Finished(ok)
    case Finished(ok) => Finished(ok)
  }

  function NotesOf(id: nat, s: Saver): seq<Note> {
    match s.pc
    case AtRename => if RenameFails(s.a) then [] else [Put(id, s.doc)]
    case AtDirSync => if DirSyncFails(s.a) then [] else [Settled(id)]
    case _ => []
  }

  /** No other Save of the run has its temporary name or its inode. */
  ghost predicate MayBegin(w: World, path: Name, id: nat, a: Attempt) {
    && id !in w.savers && Usable(w.disk, path, a)
    && forall i :: i in w.savers ==> w.savers[i].a.tmp != a.tmp && w.savers[i].a.inode != a.inode
  }

  ghost function Step(w: World, path: Name, x: Action): World {
    match x
    case Begin(id, doc, a) =>
      if MayBegin(w, path, id, a) then w.(savers := w.savers[id := Saver(doc, a, AtCreate)]) else w
    case Call(id) =>
      if id !in w.savers then w
      else
        var s := w.savers[id];
        World(
          DiskAfter(w.disk, path, s),
          w.savers[id := s.(pc := PcAfter(w.disk, s))],
          w.notes + NotesOf(id, s))
  }

  ghost function Run(w: World, path: Name, xs: seq<Action>): World {
    if xs == [] then w else Step(Run(w, path, Init(xs)), path, Last(xs))
  }

  function Idle(d: Disk): World {
    World(d, map[], [])
  }

  // ---------- What a crash may find ----------

  /** The document that can be read, given what could be read at first. */
  function Visible(first: Option<string>, notes: seq<Note>): Option<string> {
    if notes == [] then first
    else if Last(notes).Put? then Some(Last(notes).doc)
    else Visible(first, Init(notes))
  }

  ghost predicate Findable(d: Disk, path: Name, notes: seq<Note>, found: Option<string>) {
    if notes == [] then MayFind(d, path, found)
    else
      match Last(notes)
      case Put(_, doc) => Findable(d, path, Init(notes), found) || found == Some(doc)
      case Settled(_) => found == Visible(Read(d, path), notes)
  }

  // ---------- The invariant ----------

  /** The saver may still write to its inode. */
  predicate Writing(s: Saver) {
    s.pc.AtCreate? || s.pc.AtWrite? || s.pc.AtSync? || s.pc.AtRename?
  }

  predicate HasTemp(d: Disk, s: Saver) {
    s.a.tmp in Dir(d) && Dir(d)[s.a.tmp] == s.a.inode && s.a.inode in d.data
  }

  ghost predicate SaverOk(d: Disk, path: Name, s: Saver) {
    && s.a.tmp != path
    && (s.pc.AtCreate? ==> s.a.inode !in d.data && s.a.inode !in d.synced)
    && (s.pc.AtWrite? ==> HasTemp(d, s) && d.data[s.a.inode] == "")
    && (s.pc.AtSync? ==> HasTemp(d, s) && d.data[s.a.inode] == s.doc)
    && (s.pc.AtRename? ==> HasTemp(d, s) && d.data[s.a.inode] == s.doc && s.a.inode in d.synced)
    && (s.pc.AtDirSync? || s.pc == AtRemove(true) ==> s.a.tmp !in Dir(d))
    && (Writing(s) ==> Clear(d, path, s.a.inode))
  }

  /** The path leads to `inode` neither now nor after a crash. */
  ghost predicate Clear(d: Disk, path: Name, inode: nat) {
    forall k :: 0 <= k < |d.dirs| && path in d.dirs[k] ==> d.dirs[k][path] != inode
  }

  ghost predicate Apart(savers: map<nat, Saver>) {
    forall i, j :: i in savers && j in savers && i != j ==>
      savers[i].a.tmp != savers[j].a.tmp && savers[i].a.inode != savers[j].a.inode
  }

  ghost predicate DiskOk(d: Disk, path: Name, notes: seq<Note>, t: Disk) {
    && Wf(t) && Complete(t, path)
    && Read(t, path) == Visible(Read(d, path), notes)
    && forall found :: MayFind(t, path, found) <==> Findable(d, path, notes, found)
  }

  predicate SomePut(notes: seq<Note>) {
    exists k :: 0 <= k < |notes| && notes[k].Put?
  }

  predicate PutFirst(notes: seq<Note>) {
    forall m :: 0 <= m < |notes| && notes[m].Settled? ==> SomePut(notes[..m])
  }

  ghost predicate WorldOk(d: Disk, path: Name, w: World) {
    && DiskOk(d, path, w.notes, w.disk)
    && Apart(w.savers)
    && (forall i :: i in w.savers ==> SaverOk(w.disk, path, w.savers[i]))
    && (forall i :: i in w.savers && w.savers[i].pc.AtDirSync? ==> SomePut(w.notes))
    && PutFirst(w.notes)
  }

  // ---------- One call ----------

  /** A call changes its own inode, its own temporary name and the path. */
  ghost predicate Touches(d: Disk, t: Disk, path: Name, a: Attempt) {
    && t.dirs != []
    && (forall i :: i != a.inode ==>
          && (i in t.data <==> i in d.data) && (i in t.synced <==> i in d.synced)
          && (i in d.data ==> t.data[i] == d.data[i]))
    && (forall n :: n != a.tmp && n != path ==>
          (n in Dir(t) <==> n in Dir(d)) && (n in Dir(d) ==> Dir(t)[n] == Dir(d)[n]))
    && (forall k :: 0 <= k < |t.dirs| && path in t.dirs[k] ==>
          || t.dirs[k][path] == a.inode
          || exists j :: 0 <= j < |d.dirs| && path in d.dirs[j] && d.dirs[j][path] == t.dirs[k][path])
  }

  lemma CallTouches(d: Disk, path: Name, s: Saver)
    requires Wf(d) && SaverOk(d, path, s)
    ensures Touches(d, DiskAfter(d, path, s), path, s.a)
  {
    hide Wf, Clear;
    assert d.dirs != [] by { WfNonEmpty(d); }
    match s.pc
    case AtCreate => TouchDir(d, DiskAfter(d, path, s), path, s.a);
    case AtWrite =>
    case AtSync =>
    case AtRename => TouchDir(d, DiskAfter(d, path, s), path, s.a);
    case AtDirSync =>
    case AtRemove(_) => TouchDir(d, DiskAfter(d, path, s), path, s.a);
    case Finished(_) =>
  }

  lemma WfNonEmpty(d: Disk)
    requires Wf(d)
    ensures d.dirs != []
  {
  }

  lemma TouchDir(d: Disk, t: Disk, path: Name, a: Attempt)
    requires d.dirs != [] && (t.dirs == d.dirs || t.dirs == d.dirs + [Dir(t)])
    requires forall i :: i != a.inode ==>
      (i in t.data <==> i in d.data) && (i in t.synced <==> i in d.synced) && (i in d.data ==> t.data[i] == d.data[i])
    requires forall n :: n != a.tmp && n != path ==>
      (n in Dir(t) <==> n in Dir(d)) && (n in Dir(d) ==> Dir(t)[n] == Dir(d)[n])
    requires path in Dir(t) ==> Dir(t)[path] == a.inode || (path in Dir(d) && Dir(d)[path] == Dir(t)[path])
    ensures Touches(d, t, path, a)
  {
    forall k | 0 <= k < |t.dirs| && path in t.dirs[k]
      ensures t.dirs[k][path] == a.inode
        || exists j :: 0 <= j < |d.dirs| && path in d.dirs[j] && d.dirs[j][path] == t.dirs[k][path]
    {
      if k < |d.dirs| {
        assert t.dirs[k] == d.dirs[k];
      } else {
        assert t.dirs[k] == Dir(t) && Dir(d) == d.dirs[|d.dirs| - 1];
      }
    }
  }

  /** Another Save does not notice. */
  lemma OtherSaver(d: Disk, t: Disk, path: Name, a: Attempt, s: Saver)
    requires Touches(d, t, path, a) && SaverOk(d, path, s) && s.a.tmp != a.tmp && s.a.inode != a.inode
    ensures SaverOk(t, path, s)
  {
  }

  lemma OwnSaver(d: Disk, path: Name, s: Saver)
    requires Wf(d) && SaverOk(d, path, s)
    ensures SaverOk(DiskAfter(d, path, s), path, s.(pc := PcAfter(d, s)))
  {
    hide Wf;
    WfNonEmpty(d);
    assert "" + s.doc == s.doc;
  }

  /** The path leads where it led, to unchanged files. */
  ghost predicate PathKept(d: Disk, t: Disk, path: Name) {
    && (t.dirs == d.dirs || (|t.dirs| == |d.dirs| + 1 && t.dirs[..|d.dirs|] == d.dirs
        && (path in Dir(t) <==> path in Dir(d)) && (path in Dir(d) ==> Dir(t)[path] == Dir(d)[path])))
    && forall k :: 0 <= k < |d.dirs| && path in d.dirs[k] ==>
         var i := d.dirs[k][path];
         i in d.data && i in t.data && t.data[i] == d.data[i] && (i in t.synced <==> i in d.synced)
  }

  lemma KeptPath(d: Disk, t: Disk, path: Name)
    requires d.dirs != [] && PathKept(d, t, path)
    ensures Read(t, path) == Read(d, path) && (Complete(d, path) ==> Complete(t, path))
    ensures forall found :: MayFind(t, path, found) <==> MayFind(d, path, found)
  {
    forall k | 0 <= k < |t.dirs|
      ensures var j := if k < |d.dirs| then k else |d.dirs| - 1;
        && (path in t.dirs[k] <==> path in d.dirs[j])
        && (path in t.dirs[k] ==> t.dirs[k][path] == d.dirs[j][path])
        && forall found :: FoundIn(t, t.dirs[k], path, found) <==> FoundIn(d, d.dirs[j], path, found)
    {
      if k < |d.dirs| { assert t.dirs[..|d.dirs|][k] == t.dirs[k]; }
    }
    forall found | MayFind(d, path, found)
      ensures MayFind(t, path, found)
    {
      var k :| 0 <= k < |d.dirs| && FoundIn(d, d.dirs[k], path, found);
      assert FoundIn(t, t.dirs[k], path, found);
    }
  }

  /** Every call but the rename and the sync of the directory is beside the path. */
  lemma CallBeside(d: Disk, path: Name, s: Saver)
    requires Wf(d) && SaverOk(d, path, s) && !s.pc.AtDirSync? && !(s.pc.AtRename? && !RenameFails(s.a))
    ensures PathKept(d, DiskAfter(d, path, s), path) && Wf(DiskAfter(d, path, s))
  {
    var t := DiskAfter(d, path, s);
    if s.pc.AtCreate? || s.pc.AtRemove? {
      assert t.dirs == d.dirs || t.dirs == d.dirs + [Dir(t)];
      assert (d.dirs + [Dir(t)])[..|d.dirs|] == d.dirs;
    } else {
      assert t.dirs == d.dirs;
    }
  }

  /** The rename adds its document to what a crash may find. */
  lemma CallPuts(d: Disk, path: Name, s: Saver)
    requires Wf(d) && Complete(d, path) && SaverOk(d, path, s) && s.pc.AtRename? && !RenameFails(s.a)
    ensures var t := DiskAfter(d, path, s);
      && Wf(t) && Complete(t, path) && Read(t, path) == Some(s.doc)
      && forall found :: MayFind(t, path, found) <==> MayFind(d, path, found) || found == Some(s.doc)
  {
    var t := DiskAfter(d, path, s);
    assert t.dirs == d.dirs + [Dir(t)] && Dir(t)[path] == s.a.inode;
    assert forall k :: 0 <= k < |d.dirs| ==> t.dirs[k] == d.dirs[k];
    assert t.dirs[|d.dirs|] == Dir(t);
    forall found
      ensures MayFind(t, path, found) <==> MayFind(d, path, found) || found == Some(s.doc)
    {
      if MayFind(d, path, found) {
        var k :| 0 <= k < |d.dirs| && FoundIn(d, d.dirs[k], path, found);
        assert FoundIn(t, t.dirs[k], path, found);
      }
      if found == Some(s.doc) { assert FoundIn(t, t.dirs[|d.dirs|], path, found); }
      if MayFind(t, path, found) {
        var k :| 0 <= k < |t.dirs| && FoundIn(t, t.dirs[k], path, found);
        if k < |d.dirs| { assert FoundIn(d, d.dirs[k], path, found); }
      }
    }
  }

  /** The sync of the directory leaves only what can be read. */
  lemma CallSettles(d: Disk, path: Name)
    requires Wf(d) && Complete(d, path)
    ensures var t := SyncDir(d);
      && Wf(t) && Complete(t, path) && Read(t, path) == Read(d, path)
      && forall found :: MayFind(t, path, found) <==> found == Read(d, path)
  {
    var t := SyncDir(d);
    assert Dir(t) == Dir(d) == d.dirs[|d.dirs| - 1];
    forall found
      ensures MayFind(t, path, found) <==> found == Read(d, path)
    {
      assert FoundIn(t, t.dirs[0], path, found) <==> found == Read(d, path);
    }
  }

  lemma NotesGrow(d: Disk, path: Name, notes: seq<Note>, n: Note)
    ensures Visible(Read(d, path), notes + [n]) == if n.Put? then Some(n.doc) else Visible(Read(d, path), notes)
    ensures forall found :: Findable(d, path, notes + [n], found) <==>
      if n.Put? then Findable(d, path, notes, found) || found == Some(n.doc) else found == Visible(Read(d, path), notes)
  {
    assert Init(notes + [n]) == notes;
  }

  lemma CallKeepsDisk(d: Disk, path: Name, w: World, id: nat)
    requires DiskOk(d, path, w.notes, w.disk) && id in w.savers && SaverOk(w.disk, path, w.savers[id])
    ensures var s := w.savers[id];
      DiskOk(d, path, w.notes + NotesOf(id, s), DiskAfter(w.disk, path, s))
  {
    hide Wf, Complete, MayFind, Read, SaverOk, PathKept, Findable, Visible;
    var s := w.savers[id];
    WfNonEmpty(w.disk);
    if s.pc.AtRename? && !RenameFails(s.a) {
      CallPuts(w.disk, path, s);
      NotesGrow(d, path, w.notes, Put(id, s.doc));
    } else if s.pc.AtDirSync? {
      if !DirSyncFails(s.a) {
        CallSettles(w.disk, path);
        NotesGrow(d, path, w.notes, Settled(id));
      } else {
        assert w.notes + [] == w.notes;
      }
    } else {
      CallBeside(w.disk, path, s);
      KeptPath(w.disk, DiskAfter(w.disk, path, s), path);
      assert w.notes + [] == w.notes;
    }
  }

  lemma CallKeepsSavers(path: Name, w: World, id: nat)
    requires Wf(w.disk) && Apart(w.savers) && id in w.savers
    requires forall i :: i in w.savers ==> SaverOk(w.disk, path, w.savers[i])
    ensures var v := Step(w, path, Call(id));
      Apart(v.savers) && forall i :: i in v.savers ==> SaverOk(v.disk, path, v.savers[i])
  {
    var s := w.savers[id];
    CallTouches(w.disk, path, s);
    OwnSaver(w.disk, path, s);
    hide Wf, SaverOk, Touches, DiskAfter, PcAfter;
    var v := Step(w, path, Call(id));
    forall i | i in v.savers
      ensures SaverOk(v.disk, path, v.savers[i])
    {
      if i != id { OtherSaver(w.disk, v.disk, path, s.a, w.savers[i]); }
    }
  }

  lemma CallKeepsNotes(path: Name, w: World, id: nat)
    requires id in w.savers && PutFirst(w.notes)
    requires forall i :: i in w.savers && w.savers[i].pc.AtDirSync? ==> SomePut(w.notes)
    ensures var v := Step(w, path, Call(id));
      PutFirst(v.notes) && forall i :: i in v.savers && v.savers[i].pc.AtDirSync? ==> SomePut(v.notes)
  {
    hide DiskAfter;
    var s := w.savers[id];
    var v := Step(w, path, Call(id));
    assert forall m :: 0 <= m <= |w.notes| ==> v.notes[..m] == w.notes[..m];
    assert w.notes[..|w.notes|] == w.notes;
    if SomePut(w.notes) {
      var k :| 0 <= k < |w.notes| && w.notes[k].Put?;
      assert v.notes[k].Put?;
    }
    if NotesOf(id, s) != [] && NotesOf(id, s)[0].Put? { assert v.notes[|w.notes|].Put?; }
  }

  lemma StepOk(d: Disk, path: Name, w: World, x: Action)
    requires WorldOk(d, path, w)
    ensures WorldOk(d, path, Step(w, path, x))
  {
    match x
    case Begin(id, doc, a) =>
      if MayBegin(w, path, id, a) { BeginOk(d, path, w, id, doc, a); }
    case Call(id) =>
      hide DiskOk, SaverOk, Apart, PutFirst, DiskAfter, PcAfter, NotesOf;
      if id in w.savers {
        DiskOkWf(d, path, w);
        CallKeepsDisk(d, path, w, id);
        CallKeepsSavers(path, w, id);
        CallKeepsNotes(path, w, id);
      }
  }

  lemma DiskOkWf(d: Disk, path: Name, w: World)
    requires DiskOk(d, path, w.notes, w.disk)
    ensures Wf(w.disk)
  {
  }

  lemma BeginOk(d: Disk, path: Name, w: World, id: nat, doc: string, a: Attempt)
    requires WorldOk(d, path, w) && MayBegin(w, path, id, a)
    ensures WorldOk(d, path, Step(w, path, Begin(id, doc, a)))
  {
    assert SaverOk(w.disk, path, Saver(doc, a, AtCreate)) by {
      assert Wf(w.disk);
    }
    hide DiskOk, SaverOk, PutFirst;
  }

  /** The invariant of every run, from any sound disk. */
  lemma {:induction false} RunOk(d: Disk, path: Name, xs: seq<Action>)
    requires Wf(d) && Complete(d, path)
    ensures WorldOk(d, path, Run(Idle(d), path, xs))
  {
    hide Wf, Complete, WorldOk, Step;
    if xs == [] {
      IdleOk(d, path);
    } else {
      RunOk(d, path, Init(xs));
      StepOk(d, path, Run(Idle(d), path, Init(xs)), Last(xs));
    }
  }

  lemma IdleOk(d: Disk, path: Name)
    requires Wf(d) && Complete(d, path)
    ensures WorldOk(d, path, Idle(d))
  {
  }

  // ---------- The theorems ----------

  /** A later document has been put in place and the directory was synced after
      that; `k` is the position of a Put, or -1 for what was there at first. */
  ghost predicate Superseded(notes: seq<Note>, k: int) {
    exists j, m :: Supersedes(notes, k, j, m)
  }

  predicate Supersedes(notes: seq<Note>, k: int, j: int, m: int) {
    0 <= j && k < j < m < |notes| && notes[j].Put? && notes[m].Settled?
  }

  predicate PutAt(notes: seq<Note>, k: int, found: Option<string>) {
    0 <= k < |notes| && notes[k].Put? && found == Some(notes[k].doc)
  }

  ghost predicate StillFindable(d: Disk, path: Name, notes: seq<Note>, found: Option<string>) {
    || (exists k :: PutAt(notes, k, found) && !Superseded(notes, k))
    || (MayFind(d, path, found) && !Superseded(notes, -1))
  }

  lemma SupersededGrows(notes: seq<Note>, n: Note, k: int)
    requires -1 <= k < |notes|
    ensures Superseded(notes + [n], k) <==>
      Superseded(notes, k) || (n.Settled? && exists j :: k < j < |notes| && 0 <= j && notes[j].Put?)
  {
    var l := notes + [n];
    assert forall i :: 0 <= i < |notes| ==> l[i] == notes[i];
    assert l[|notes|] == n;
    if j, m :| Supersedes(notes, k, j, m) { assert Supersedes(l, k, j, m); }
    if j, m :| Supersedes(l, k, j, m) {
      if m < |notes| { assert Supersedes(notes, k, j, m); }
    }
    if n.Settled? && exists j :: k < j < |notes| && 0 <= j && notes[j].Put? {
      var j :| k < j < |notes| && 0 <= j && notes[j].Put?;
      assert Supersedes(l, k, j, |notes|);
    }
  }

  lemma {:induction false} VisibleIs(first: Option<string>, notes: seq<Note>)
    ensures forall k :: 0 <= k < |notes| && notes[k].Put? && (forall m :: k < m < |notes| ==> !notes[m].Put?) ==>
      Visible(first, notes) == Some(notes[k].doc)
    ensures !SomePut(notes) ==> Visible(first, notes) == first
  {
    if notes == [] {
    } else if !Last(notes).Put? {
      VisibleIs(first, Init(notes));
      assert forall k :: 0 <= k < |notes| - 1 ==> Init(notes)[k] == notes[k];
    }
  }

  lemma {:induction false} LastPut(notes: seq<Note>) returns (k: int)
    requires SomePut(notes)
    ensures 0 <= k < |notes| && notes[k].Put? && forall m :: k < m < |notes| ==> !notes[m].Put?
  {
    if Last(notes).Put? {
      k := |notes| - 1;
    } else {
      k := LastPut(Init(notes));
    }
  }

  lemma {:induction false} FindableIff(d: Disk, path: Name, notes: seq<Note>, found: Option<string>)
    requires PutFirst(notes)
    ensures Findable(d, path, notes, found) <==> StillFindable(d, path, notes, found)
  {
    hide MayFind, Superseded;
    if notes == [] {
      NeverSuperseded(notes);
    } else {
      var before, n := Init(notes), Last(notes);
      assert notes == before + [n];
      forall m | 0 <= m < |before|
        ensures before[..m] == notes[..m]
      {
      }
      FindableIff(d, path, before, found);
      forall k | -1 <= k < |before|
        ensures Superseded(notes, k) <==>
          Superseded(before, k) || (n.Settled? && exists j :: k < j < |before| && 0 <= j && before[j].Put?)
        ensures 0 <= k ==> (PutAt(notes, k, found) <==> PutAt(before, k, found))
      {
        SupersededGrows(before, n, k);
      }
      if n.Put? {
        NotSuperseded(notes, |before|);
        assert found == Some(n.doc) ==> PutAt(notes, |before|, found);
        PutKeeps(d, path, before, n, found);
      } else {
        assert notes[..|before|] == before;
        SettledKeeps(d, path, before, n, found);
      }
    }
  }

  lemma NeverSuperseded(notes: seq<Note>)
    ensures notes == [] ==> !Superseded(notes, -1)
  {
  }

  lemma NotSuperseded(notes: seq<Note>, k: int)
    requires k == |notes| - 1
    ensures !Superseded(notes, k)
  {
  }

  lemma PutKeeps(d: Disk, path: Name, before: seq<Note>, n: Note, found: Option<string>)
    requires n.Put? && forall k :: -1 <= k < |before| ==> (Superseded(before + [n], k) <==> Superseded(before, k))
    ensures StillFindable(d, path, before + [n], found) <==>
      StillFindable(d, path, before, found) || found == Some(n.doc)
  {
    hide MayFind, Superseded;
    var notes := before + [n];
    NotSuperseded(notes, |before|);
    assert forall k :: 0 <= k < |before| ==> notes[k] == before[k];
    if found == Some(n.doc) { assert PutAt(notes, |before|, found); }
    if k :| PutAt(before, k, found) && !Superseded(before, k) { assert PutAt(notes, k, found); }
    if k :| PutAt(notes, k, found) && !Superseded(notes, k) {
      if k < |before| { assert PutAt(before, k, found); }
    }
  }

  lemma SettledKeeps(d: Disk, path: Name, before: seq<Note>, n: Note, found: Option<string>)
    requires n.Settled? && SomePut(before)
    requires forall k :: -1 <= k < |before| ==>
      (Superseded(before + [n], k) <==>
         Superseded(before, k) || exists j :: k < j < |before| && 0 <= j && before[j].Put?)
    ensures StillFindable(d, path, before + [n], found) <==> found == Visible(Read(d, path), before + [n])
  {
    hide MayFind, Superseded;
    var notes := before + [n];
    var p := LastPut(before);
    assert forall k :: 0 <= k < |before| ==> notes[k] == before[k];
    VisibleIs(Read(d, path), notes);
    assert Visible(Read(d, path), notes) == Some(notes[p].doc);
    LastIsNotSuperseded(before, p);
    if found == Some(notes[p].doc) { assert PutAt(notes, p, found); }
    if k :| PutAt(notes, k, found) && !Superseded(notes, k) {
      assert k == p;
    }
  }

  lemma LastIsNotSuperseded(notes: seq<Note>, p: int)
    requires 0 <= p < |notes| && forall m :: p < m < |notes| ==> !notes[m].Put?
    ensures !Superseded(notes, p)
  {
  }

  /** Crash safety of interleaved Saves: at every moment the path reads as the
      document of the last Save that renamed, whole; and a power cut finds exactly
      one of the documents that were renamed into place, or what was there at
      first, unless a later rename has been followed by a sync of the directory,
      no matter whose. */
  lemma CrashFindsAWholeDocument(d: Disk, path: Name, xs: seq<Action>)
    requires Wf(d) && Complete(d, path)
    ensures var w := Run(Idle(d), path, xs);
      && Read(w.disk, path) == Visible(Read(d, path), w.notes)
      && forall found :: MayFind(w.disk, path, found) <==> StillFindable(d, path, w.notes, found)
  {
    hide Run, Wf, Complete, MayFind, Read, Findable, StillFindable, SaverOk;
    RunOk(d, path, xs);
    var w := Run(Idle(d), path, xs);
    forall found
      ensures Findable(d, path, w.notes, found) <==> StillFindable(d, path, w.notes, found)
    {
      FindableIff(d, path, w.notes, found);
    }
  }

  /** Every Save that begins in the run, and what is there at first, has a
      document that Load takes. */
  ghost predicate AllAccepted(
    isIP: string -> bool, decode: string -> Option<C.Config>, d: Disk, path: Name, xs: seq<Action>)
  {
    && (forall found :: MayFind(d, path, found) ==> found.Some? && Accepted(isIP, decode, found.value))
    && (forall x :: x in xs && x.Begin? ==> Accepted(isIP, decode, x.doc))
  }

  ghost predicate DocsAccepted(isIP: string -> bool, decode: string -> Option<C.Config>, w: World) {
    && (forall i :: i in w.savers ==> Accepted(isIP, decode, w.savers[i].doc))
    && (forall k :: 0 <= k < |w.notes| && w.notes[k].Put? ==> Accepted(isIP, decode, w.notes[k].doc))
  }

  lemma {:induction false} DocsStayAccepted(
    isIP: string -> bool, decode: string -> Option<C.Config>, d: Disk, path: Name, xs: seq<Action>)
    requires forall x :: x in xs && x.Begin? ==> Accepted(isIP, decode, x.doc)
    ensures DocsAccepted(isIP, decode, Run(Idle(d), path, xs))
  {
    hide Accepted, DiskAfter, MayBegin;
    if xs == [] {
    } else {
      DocsStayAccepted(isIP, decode, d, path, Init(xs));
      assert Last(xs) in xs;
    }
  }

  /** However Saves interleave and whenever the power goes, the next start finds a
      configuration that it takes. */
  lemma RestartFindsAValidDocument(
    isIP: string -> bool, decode: string -> Option<C.Config>, d: Disk, path: Name, xs: seq<Action>,
    found: Option<string>)
    requires Wf(d) && Complete(d, path) && AllAccepted(isIP, decode, d, path, xs)
    requires MayFind(Run(Idle(d), path, xs).disk, path, found)
    ensures found.Some? && Accepted(isIP, decode, found.value)
  {
    hide Run, Wf, Complete, MayFind, Superseded, Accepted;
    CrashFindsAWholeDocument(d, path, xs);
    DocsStayAccepted(isIP, decode, d, path, xs);
  }

  // ---------- One Save alone ----------

  /** What `n` calls of a single Save do. */
  function After(d: Disk, path: Name, s: Saver, n: nat): (Disk, Saver) {
    if n == 0 then (d, s)
    else
      var (e, t) := After(d, path, s, n - 1);
      (DiskAfter(e, path, t), t.(pc := PcAfter(e, t)))
  }

  function Alone(doc: string, a: Attempt, n: nat): seq<Action> {
    if n == 0 then [Begin(0, doc, a)] else Alone(doc, a, n - 1) + [Call(0)]
  }

  lemma {:induction false} RunAlone(d: Disk, path: Name, doc: string, a: Attempt, n: nat)
    requires Usable(d, path, a)
    ensures var w := Run(Idle(d), path, Alone(doc, a, n));
      var (e, t) := After(d, path, Saver(doc, a, AtCreate), n);
      w.disk == e && w.savers == map[0 := t]
  {
    hide DiskAfter, PcAfter;
    if n == 0 {
      assert Init(Alone(doc, a, 0)) == [];
    } else {
      RunAlone(d, path, doc, a, n - 1);
      assert Init(Alone(doc, a, n)) == Alone(doc, a, n - 1);
    }
  }

  lemma AfterStep(d: Disk, path: Name, s: Saver, n: nat, e: Disk, pc: Pc)
    requires After(d, path, s, n) == (e, s.(pc := pc))
    ensures var t := s.(pc := pc);
      After(d, path, s, n + 1) == (DiskAfter(e, path, t), s.(pc := PcAfter(e, t)))
  {
    hide DiskAfter, PcAfter;
  }

  lemma SixCalls(d: Disk, path: Name, doc: string, a: Attempt)
    requires Usable(d, path, a)
    ensures After(d, path, Saver(doc, a, AtCreate), 6)
         == (AfterSave(d, path, doc, a), Saver(doc, a, Finished(!SaveFails(d, a))))
  {
    hide After, Create, Append, SyncFile, SyncDir, Rename, Cleanup;
    var s := Saver(doc, a, AtCreate);
    assert After(d, path, s, 0) == (d, s) by { NoCalls(d, path, s); }
    var d1, p1 := DiskAfter(d, path, s), PcAfter(d, s);
    AfterStep(d, path, s, 0, d, AtCreate);
    var d2, p2 := DiskAfter(d1, path, s.(pc := p1)), PcAfter(d1, s.(pc := p1));
    AfterStep(d, path, s, 1, d1, p1);
    var d3, p3 := DiskAfter(d2, path, s.(pc := p2)), PcAfter(d2, s.(pc := p2));
    AfterStep(d, path, s, 2, d2, p2);
    var d4, p4 := DiskAfter(d3, path, s.(pc := p3)), PcAfter(d3, s.(pc := p3));
    AfterStep(d, path, s, 3, d3, p3);
    var d5, p5 := DiskAfter(d4, path, s.(pc := p4)), PcAfter(d4, s.(pc := p4));
    AfterStep(d, path, s, 4, d4, p4);
    AfterStep(d, path, s, 5, d5, p5);
    if !SaveFails(d, a) {
      TempFile(d, a.tmp, a.inode, doc);
      RemovesNothing(d3, path, a);
    }
  }

  lemma NoCalls(d: Disk, path: Name, s: Saver)
    ensures After(d, path, s, 0) == (d, s)
  {
  }

  lemma RemovesNothing(d: Disk, path: Name, a: Attempt)
    requires a.tmp != path
    ensures a.tmp in Dir(d) ==>
      var r := Rename(d, a.tmp, path);
      Cleanup(r, a) == r && Cleanup(SyncDir(r), a) == SyncDir(r)
  {
  }

  /** A Save that nothing interleaves with is the Save of `Disk`. */
  lemma AloneIsSave(d: Disk, path: Name, doc: string, a: Attempt)
    requires Usable(d, path, a)
    ensures var w := Run(Idle(d), path, Alone(doc, a, 6));
      && w.disk == AfterSave(d, path, doc, a)
      && w.savers == map[0 := Saver(doc, a, Finished(!SaveFails(d, a)))]
  {
    hide AfterSave, SaveFails, Run, After;
    SixCalls(d, path, doc, a);
    RunAlone(d, path, doc, a, 6);
  }
}
