/** Whole runs of the mount: any interleaving of callbacks, with any number of readers and at
    most one writer of a path. `crates/mtpfs/src/main.rs`. */
module Runs {
  import opened Bytes
  import opened Wrappers
  import opened Device
  import opened Backend
  import opened ReadAhead
  import opened World
  import opened Index
  import opened Upkeep
  import opened Callbacks
  import opened RenameIndex
  import opened RenameCall
  import opened Walks
  import opened PathTree
  import AsTold
  import Mount = World
  import Host

  // ----- the run -----

  /** A file some program holds open, as the kernel knows it. */
  datatype Slot = Slot(path: string, fh: nat)

  /** The mount, the files the kernel holds open, and the plain bytes each open write stands for. */
  datatype Desk = Desk(w: World, open: map<nat, Slot>, shadow: map<string, seq<Byte>>)

  datatype FsCall =
    | OpenFile(id: nat, path: string, flags: nat)
    | CreateFile(id: nat, path: string)
    | WriteFile(id: nat, bytes: seq<Byte>, offset: nat)
    | ReadFile(id: nat, want: nat, offset: nat)
    | FlushFile(id: nat)
    | ReleaseFile(id: nat)
    | TruncatePath(path: string, size: nat)
    | RenamePath(from: string, to: string)
    | RemoveAt(path: string, wantDir: bool)
    | MakeFolderAt(path: string)
    | ListFolder(path: string)

  function Shadow(d: Desk, path: string): seq<Byte> {
    if path in d.shadow then d.shadow[path] else []
  }

  /** The kernel hands a file out when the callback gave a handle. */
  function Handed(open: map<nat, Slot>, id: nat, path: string, r: Opened): map<nat, Slot> {
    if r.rc == 0 && r.fh.Some? then open[id := Slot(path, r.fh.value)] else open
  }

  /** An `open` that truncates and answers 0 leaves no bytes; another one that makes an entry
      starts from the bytes of the object. */
  function StepOpen(d: Desk, id: nat, path: string, flags: nat): Desk {
    var r := Open(d.w, path, Some(flags));
    var anew := path !in d.w.pending && path in r.w.pending;
    Desk(r.w, Handed(d.open, id, path, r),
         if FlagTruncates(flags) && r.rc == 0 then d.shadow[path := []]
         else if anew then d.shadow[path := ObjectBytes(d.w.m.dev.store, path)]
         else d.shadow)
  }

  function StepCreate(d: Desk, id: nat, path: string): Desk {
    var r := Create(d.w, path, Some(0));
    Desk(r.w, Handed(d.open, id, path, r), if r.rc == 0 then d.shadow[path := []] else d.shadow)
  }

  function StepWrite(d: Desk, path: string, bytes: seq<Byte>, offset: nat): Desk {
    d.(w := Write(d.w, path, bytes, offset).w,
       shadow := d.shadow[path := Host.Splice(Shadow(d, path), offset, bytes)])
  }

  function StepTruncate(d: Desk, path: string, size: nat): Desk {
    var o := Truncate(d.w, path, size);
    var bytes :=
      if path !in d.w.pending then (if size > 0 then ObjectBytes(d.w.m.dev.store, path) else [])
      else if o.rc == 0 then Host.Resize(Shadow(d, path), size)
      else Shadow(d, path);
    d.(w := o.w, shadow := d.shadow[path := bytes])
  }

  /** A path, and every path below it. */
  predicate AtOrBelow(path: string, dir: string) {
    path == dir || (|dir| < |path| && path[..|dir|] == dir && path[|dir|] == '/')
  }

  /** The kernel's name for a file after a rename of the file, or of a folder above it. */
  function MovedPath(path: string, from: string, to: string): string {
    if AtOrBelow(path, from) then to + path[|from|..] else path
  }

  function MovedSlots(open: map<nat, Slot>, from: string, to: string): map<nat, Slot> {
    map id | id in open :: Slot(MovedPath(open[id].path, from, to), open[id].fh)
  }

  /** After a rename, the kernel names the files that moved with it by their new paths. */
  function StepRename(d: Desk, from: string, to: string): Desk {
    var o := Mount.Rename(d.w, from, to);
    d.(w := o.w, open := if o.rc == 0 then MovedSlots(d.open, from, to) else d.open)
  }

  function Step(d: Desk, c: FsCall): Desk
    requires Legal(d, c)
  {
    match c
    case OpenFile(id, path, flags) => StepOpen(d, id, path, flags)
    case CreateFile(id, path) => StepCreate(d, id, path)
    case WriteFile(id, bytes, offset) => StepWrite(d, d.open[id].path, bytes, offset)
    case ReadFile(id, want, offset) => d.(w := Read(d.w, d.open[id].path, want, offset, Some(d.open[id].fh)).w)
    case FlushFile(id) => d.(w := Flush(d.w, d.open[id].path, Some(d.open[id].fh)).w)
    case ReleaseFile(id) => d.(w := Release(d.w, d.open[id].path, Some(d.open[id].fh)).w, open := d.open - {id})
    case TruncatePath(path, size) => StepTruncate(d, path, size)
    case RenamePath(from, to) => StepRename(d, from, to)
    case RemoveAt(path, wantDir) => d.(w := RemovePath(d.w, path, wantDir).w)
    case MakeFolderAt(path) => d.(w := Mkdir(d.w, path).w)
    case ListFolder(path) => d.(w := ReadFolder(d.w, path).w)
  }

  // ----- what the kernel and the programs keep to -----

  predicate IsWriter(s: Slot) {
    FhMarked(s.fh)
  }

  predicate NoWriter(d: Desk, path: string) {
    forall id <- d.open :: IsWriter(d.open[id]) ==> d.open[id].path != path
  }

  /** No file at the path, or below it, is open for writing. */
  predicate NoWriterBelow(d: Desk, path: string) {
    forall id <- d.open :: IsWriter(d.open[id]) ==> !AtOrBelow(d.open[id].path, path)
  }

  /** The path has no entry, or one without bytes. */
  predicate NoBytes(w: World, path: string) {
    path in w.pending ==> Host.Contents(w.host, w.pending[path].spool) == []
  }

  /** One writer of a path at a time; opens that truncate only where no entry holds bytes;
      writes that bring bytes; reads of at most 4 GiB; renames
      of no file open for writing and of no folder above one, that do not end half done in
      another folder. */
  predicate Legal(d: Desk, c: FsCall) {
    match c
    case OpenFile(id, path, flags) =>
      && id !in d.open && (FlagWrites(flags) ==> NoWriter(d, path))
      && (FlagTruncates(flags) ==> NoBytes(d.w, path))
    case CreateFile(id, path) => id !in d.open && NoWriter(d, path)
    case WriteFile(id, bytes, offset) => id in d.open && IsWriter(d.open[id]) && bytes != []
    case ReadFile(id, want, offset) => id in d.open && want < 0x1_0000_0000
    case FlushFile(id) => id in d.open
    case ReleaseFile(id) => id in d.open
    case RenamePath(from, to) => Tame(d.w, from, to) && !RenameStrands(d.w, from, to) && NoWriterBelow(d, from)
    case _ => true
  }

  predicate LegalRun(d: Desk, calls: seq<FsCall>)
    decreases |calls|
  {
    calls == [] || (Legal(d, calls[0]) && LegalRun(Step(d, calls[0]), calls[1..]))
  }

  function Run(d: Desk, calls: seq<FsCall>): Desk
    requires LegalRun(d, calls)
    decreases |calls|
  {
    if calls == [] then d else Run(Step(d, calls[0]), calls[1..])
  }

  // ----- what every call keeps -----

  /** Two handles of one path, both for writing. */
  predicate TwoWriters(a: Slot, b: Slot) {
    IsWriter(a) && IsWriter(b) && a.path == b.path
  }

  /** Every open writer has its entry, and no path has two. */
  ghost predicate WritersHeld(d: Desk) {
    && (forall id <- d.open :: IsWriter(d.open[id]) ==> d.open[id].path in d.w.pending)
    && (forall a, b :: a in d.open && b in d.open && TwoWriters(d.open[a], d.open[b]) ==> a == b)
  }

  ghost predicate Kept(d: Desk) {
    Good(d.w) && WritersHeld(d)
  }

  /** Every whole spool holds the bytes its open write stands for. */
  ghost predicate Mirrors(d: Desk) {
    && Generous(d.w.m.dev)
    && forall q <- d.w.pending :: q in d.shadow && Holds(d.w, q, d.shadow[q])
  }

  lemma HoldsElsewhere(w: World, w': World, path: string, q: string, bytes: seq<Byte>)
    requires Good(w) && OnlyPath(w, w', path) && q != path && Holds(w, q, bytes)
    ensures Holds(w', q, bytes)
  {
    assert EntryOk(w, w.pending[q]);
    hide BaseOk, Placed;
  }

  /** A call on one path keeps what every other entry mirrors. */
  lemma MirrorsAfter(d: Desk, d': Desk, path: string)
    requires Good(d.w) && Works(d.w, d'.w, path) && Mirrors(d)
    requires forall q :: q in d.shadow && q != path ==> q in d'.shadow && d'.shadow[q] == d.shadow[q]
    requires path in d'.w.pending ==> path in d'.shadow && Holds(d'.w, path, d'.shadow[path])
    ensures Mirrors(d')
  {
    forall q | q in d'.w.pending
      ensures q in d'.shadow && Holds(d'.w, q, d'.shadow[q])
    {
      if q != path {
        HoldsElsewhere(d.w, d'.w, path, q, d.shadow[q]);
      }
    }
    hide Good, Holds, BaseOk;
  }

  lemma MirrorsQuietly(d: Desk, d': Desk)
    requires Good(d.w) && Mirrors(d) && d'.shadow == d.shadow
    requires d'.w.pending == d.w.pending && HostKeeps(d.w.host, d'.w.host, {}) && Generous(d'.w.m.dev)
    ensures Mirrors(d')
  {
    forall q | q in d'.w.pending
      ensures q in d'.shadow && Holds(d'.w, q, d'.shadow[q])
    {
      assert EntryOk(d.w, d.w.pending[q]);
    }
    hide BaseOk, Placed, Generous;
  }

  /** A call that works on no entry keeps everything. */
  lemma QuietStep(d: Desk, d': Desk)
    requires Kept(d) && Quiet(d.w, d'.w) && d'.shadow == d.shadow
    requires forall id <- d'.open :: IsWriter(d'.open[id]) ==> id in d.open && d'.open[id] == d.open[id]
    ensures Kept(d') && (Mirrors(d) ==> Mirrors(d'))
  {
    QuietIsGood(d.w, d'.w);
    if Mirrors(d) {
      MirrorsQuietly(d, d');
    }
    hide Good, Holds, BaseOk, IsWriter, HostKeeps;
  }

  // ----- call by call -----

  /** The kernel hands out at most one file more, and as a writer only of a path that has none. */
  ghost predicate OpensOnly(d: Desk, d': Desk, path: string) {
    && (forall k <- d'.open :: k in d.open ==> d'.open[k] == d.open[k])
    && (forall k <- d'.open :: k !in d.open && IsWriter(d'.open[k]) ==> d'.open[k].path == path && NoWriter(d, path))
    && (forall a, b :: a in d'.open && b in d'.open && a !in d.open && b !in d.open ==> a == b)
  }

  /** The writers of a path are in the map. */
  ghost predicate PathHeld(d: Desk, path: string) {
    forall k <- d.open :: IsWriter(d.open[k]) && d.open[k].path == path ==> path in d.w.pending
  }

  lemma WritersStay(d: Desk, d': Desk, path: string)
    requires WritersHeld(d) && OnlyPath(d.w, d'.w, path) && OpensOnly(d, d', path)
    requires PathHeld(d', path)
    ensures WritersHeld(d')
  {
    forall k | k in d'.open && IsWriter(d'.open[k])
      ensures d'.open[k].path in d'.w.pending
    {
      assert d'.open[k].path != path ==> d'.open[k].path in d.w.pending;
    }
    forall a, b | a in d'.open && b in d'.open && TwoWriters(d'.open[a], d'.open[b])
      ensures a == b
    {
      assert a in d.open && b in d.open ==> TwoWriters(d.open[a], d.open[b]);
    }
    hide IsWriter, HostKeeps;
  }

  lemma PathStep(d: Desk, d': Desk, path: string)
    requires Kept(d) && Works(d.w, d'.w, path) && (path in d'.w.pending ==> EntryOk(d'.w, d'.w.pending[path]))
    requires OpensOnly(d, d', path)
    requires PathHeld(d', path)
    requires forall q :: q in d.shadow && q != path ==> q in d'.shadow && d'.shadow[q] == d.shadow[q]
    requires Mirrors(d) && path in d'.w.pending ==> path in d'.shadow && Holds(d'.w, path, d'.shadow[path])
    ensures Kept(d') && (Mirrors(d) ==> Mirrors(d'))
  {
    PathIsGood(d.w, d'.w, path);
    if Mirrors(d) {
      MirrorsAfter(d, d', path);
    }
    WritersStay(d, d', path);
    hide Good, BaseOk, IsWriter, Holds, Mirrors, EntryOk, WritersHeld, OpensOnly, PathHeld;
  }

  /** A quiet call leaves the entry of a path as it should be. */
  lemma QuietEntry(d: Desk, w': World, path: string)
    requires Good(d.w) && Quiet(d.w, w') && path in d.w.pending
    ensures path in w'.pending && EntryOk(w', w'.pending[path])
    ensures Mirrors(d) ==> path in d.shadow && Holds(w', path, d.shadow[path])
  {
    QuietIsGood(d.w, w');
    if Mirrors(d) {
      MirrorsQuietly(d, d.(w := w'));
    }
    hide BaseOk, EntryOk, Holds, SpoolsApart, Onward;
  }

  lemma HandedWell(d: Desk, d': Desk, id: nat, path: string, r: Opened)
    requires WritersHeld(d) && id !in d.open && d'.open == Handed(d.open, id, path, r)
    requires r.rc == 0 && r.fh.Some? && FhMarked(r.fh.value) ==> NoWriter(d, path) && path in d'.w.pending
    requires path in d.w.pending ==> path in d'.w.pending
    ensures OpensOnly(d, d', path) && PathHeld(d', path)
  {
    hide FhMarked;
  }

  lemma OpenStep(d: Desk, id: nat, path: string, flags: nat)
    requires Kept(d) && Legal(d, OpenFile(id, path, flags))
    ensures var d' := StepOpen(d, id, path, flags); Kept(d') && (Mirrors(d) ==> Mirrors(d'))
  {
    hide Open, Good, FlagWrites, FlagTruncates, FhMarked, Holds, EntryOk, Works, Quiet, Walk,
         ObjectBytes, OpensOnly, WritersHeld, PathHeld;
    var r := Open(d.w, path, Some(flags));
    var d' := StepOpen(d, id, path, flags);
    KeptIsOk(d);
    OpenOpens(d.w, path, Some(flags));
    if path in d.w.pending {
      QuietEntry(d, r.w, path);
      if FlagTruncates(flags) {
        EmptyStays(d.w, r.w, path);
      }
    }
    HandedWell(d, d', id, path, r);
    PathStep(d, d', path);
  }

  /** An entry without bytes has none after a quiet call. */
  lemma EmptyStays(w: World, w': World, path: string)
    requires Good(w) && Quiet(w, w') && path in w.pending && NoBytes(w, path)
    ensures Holds(w', path, []) && NoBytes(w', path)
  {
    assert EntryOk(w, w.pending[path]);
    hide BaseOk, Placed, Onward;
  }

  lemma CreateStep(d: Desk, id: nat, path: string)
    requires Kept(d) && Legal(d, CreateFile(id, path))
    ensures var d' := StepCreate(d, id, path); Kept(d') && (Mirrors(d) ==> Mirrors(d'))
  {
    hide Create, Good, FhMarked, Holds, EntryOk, Works, Quiet, OpensOnly, WritersHeld, PathHeld;
    var r := Create(d.w, path, Some(0));
    var d' := StepCreate(d, id, path);
    CreateCreates(d.w, path, Some(0));
    if r.rc != 0 {
      QuietStep(d, d');
    } else {
      HandedWell(d, d', id, path, r);
      PathStep(d, d', path);
    }
  }

  lemma WriteStep(d: Desk, path: string, bytes: seq<Byte>, offset: nat)
    requires Kept(d) && path in d.w.pending && bytes != []
    ensures var d' := StepWrite(d, path, bytes, offset); Kept(d') && (Mirrors(d) ==> Mirrors(d'))
  {
    var d' := StepWrite(d, path, bytes, offset);
    WriteWrites(d.w, path, bytes, offset, Shadow(d, path));
    hide Write, BaseOk, Holds, EntryOk, Works, SpoolsApart, Host.Splice, IsWriter;
    PathStep(d, d', path);
  }

  lemma TruncateStep(d: Desk, path: string, size: nat)
    requires Kept(d)
    ensures var d' := StepTruncate(d, path, size); Kept(d') && (Mirrors(d) ==> Mirrors(d'))
  {
    hide TruncateOpen, TruncateClosed, Good, Holds, EntryOk, Works, Host.Resize, Walk, ObjectBytes,
         OpensOnly, PathHeld;
    var d' := StepTruncate(d, path, size);
    if path in d.w.pending {
      TruncateOpenCuts(d.w, path, size, Shadow(d, path));
    } else {
      TruncateClosedTruncates(d.w, path, size);
    }
    SameFiles(d, d', path);
    PathStep(d, d', path);
  }

  /** A call that hands nothing out. */
  lemma SameFiles(d: Desk, d': Desk, path: string)
    requires Kept(d) && d'.open == d.open && (path in d.w.pending ==> path in d'.w.pending)
    ensures OpensOnly(d, d', path) && PathHeld(d', path)
  {
    hide Good, IsWriter;
  }

  lemma FlushStep(d: Desk, path: string, fh: nat)
    requires Kept(d)
    ensures var d' := d.(w := Flush(d.w, path, Some(fh)).w); Kept(d') && (Mirrors(d) ==> Mirrors(d'))
  {
    var o := Flush(d.w, path, Some(fh));
    var d' := d.(w := o.w);
    FlushFlushes(d.w, path, Some(fh));
    hide Flush, BaseOk, EntryOk, Works, SpoolsApart, IsWriter, FhMarked;
    assert path in d'.w.pending ==> EntryOk(d'.w, d'.w.pending[path]);
    PathStep(d, d', path);
  }

  lemma ReleaseStep(d: Desk, id: nat)
    requires Kept(d) && id in d.open
    ensures var d' := d.(w := Release(d.w, d.open[id].path, Some(d.open[id].fh)).w, open := d.open - {id});
      Kept(d') && (Mirrors(d) ==> Mirrors(d'))
  {
    var s := d.open[id];
    var o := Release(d.w, s.path, Some(s.fh));
    var d' := d.(w := o.w, open := d.open - {id});
    ReleaseReleases(d.w, s.path, Some(s.fh));
    hide Release, BaseOk, EntryOk, Works, SpoolsApart, FhMarked, Good, Holds;
    if IsWriter(s) {
      PathStep(d, d', s.path);
    }
  }

  /** The files that move with a rename, when none of them is open for writing. */
  lemma WritersUnmoved(d: Desk, d': Desk, from: string, to: string)
    requires WritersHeld(d) && NoWriterBelow(d, from) && d'.w.pending == d.w.pending
    requires d'.open == d.open || d'.open == MovedSlots(d.open, from, to)
    ensures WritersHeld(d')
  {
    assert forall k <- d'.open :: IsWriter(d'.open[k]) ==> k in d.open && d'.open[k] == d.open[k];
    forall a, b | a in d'.open && b in d'.open && TwoWriters(d'.open[a], d'.open[b])
      ensures a == b
    {
      assert TwoWriters(d.open[a], d.open[b]);
    }
    hide IsWriter, AtOrBelow;
  }

  lemma RenameStep(d: Desk, from: string, to: string)
    requires Kept(d) && Legal(d, RenamePath(from, to))
    ensures var d' := StepRename(d, from, to); Kept(d') && (Mirrors(d) ==> Mirrors(d'))
  {
    RenameKeepsIndexIff(d.w, from, to);
    RenameKeepsEntries(d.w, from, to);
    hide Mount.Rename, Good, RenameStrands, Tame, Holds, MovedSlots, NoWriterBelow, WritersHeld;
    var d' := StepRename(d, from, to);
    WritersUnmoved(d, d', from, to);
    if Mirrors(d) {
      MirrorsQuietly(d, d');
    }
  }

  // ----- a writer below a folder that is renamed -----

  /** No entry is for the path, or for one below it. */
  predicate NoEntryBelow(w: World, path: string) {
    forall q <- w.pending :: !AtOrBelow(q, path)
  }

  lemma MovedIsBelow(path: string, from: string, to: string)
    requires AtOrBelow(path, from)
    ensures AtOrBelow(MovedPath(path, from, to), to)
  {
    var p := MovedPath(path, from, to);
    if path == from {
      assert p == to + [];
    } else {
      assert p[..|to|] == to && p[|to|] == path[|from|];
    }
  }

  /** A rename that works keeps every open writer with its entry exactly when no file at its old
      path, or below it, is open for writing. The mount never moves an entry to a new path. */
  lemma RenameKeepsWritersIff(d: Desk, from: string, to: string)
    requires Kept(d) && Tame(d.w, from, to) && !RenameStrands(d.w, from, to)
    requires Mount.Rename(d.w, from, to).rc == 0 && NoEntryBelow(d.w, to)
    ensures WritersHeld(StepRename(d, from, to)) <==> NoWriterBelow(d, from)
  {
    RenameKeepsEntries(d.w, from, to);
    hide Mount.Rename, Good, RenameStrands, Tame, AtOrBelow, MovedPath, IsWriter;
    var d' := StepRename(d, from, to);
    if NoWriterBelow(d, from) {
      WritersUnmoved(d, d', from, to);
    } else {
      var id :| id in d.open && IsWriter(d.open[id]) && AtOrBelow(d.open[id].path, from);
      MovedIsBelow(d.open[id].path, from, to);
      WriterIsWriter(d.open[id], d'.open[id]);
      assert d'.open[id].path !in d'.w.pending;
    }
  }

  lemma WriterIsWriter(a: Slot, b: Slot)
    requires a.fh == b.fh
    ensures IsWriter(a) <==> IsWriter(b)
  {
  }

  /** An open writer that moved with its folder has lost its entry: the next write meets EROFS,
      and the flush answers 0 and asks the device for nothing. */
  lemma MovedWriterIsLost(d: Desk, from: string, to: string, id: nat, bytes: seq<Byte>, offset: nat)
    requires Kept(d) && Tame(d.w, from, to) && !RenameStrands(d.w, from, to) && Mount.Rename(d.w, from, to).rc == 0
    requires id in d.open && MovedPath(d.open[id].path, from, to) !in d.w.pending
    ensures var d' := StepRename(d, from, to); var path := MovedPath(d.open[id].path, from, to);
      && id in d'.open && d'.open[id] == Slot(path, d.open[id].fh)
      && Write(d'.w, path, bytes, offset) == Outcome(d'.w, -EROFS)
      && Flush(d'.w, path, Some(d.open[id].fh)) == Outcome(d'.w, 0)
  {
    RenameKeepsEntries(d.w, from, to);
    hide Mount.Rename, Kept, RenameStrands, Tame, FhMarked, MovedPath, Write, Flush;
    var path := MovedPath(d.open[id].path, from, to);
    NoEntryNoWrite(StepRename(d, from, to).w, path, Some(d.open[id].fh), bytes, offset);
  }

  /** Folder "d", and in it the new file "f" that one program has open for writing. The mount has
      listed the root, and the phone does the next request. */
  ghost predicate OpenBelow(d: Desk, fh: nat) {
    && d.w.m.dev.store == Store(map[1 := Object(ROOT, "d", true, [])], [1], 2)
    && d.w.tree == TreeState(map[1 := Entry(1, ROOT, "d", true, 0)], map[ROOT := [1]], {ROOT})
    && d.w.pending == map["/d/f" := NewPending(1, "f", 0, 0, None)]
    && d.open == map[0 := Slot("/d/f", fh)]
    && d.w.m.canRename && AsTold.Obeys(d.w.m.dev)
  }

  /** The folder "/d" is renamed to "/e". The open file is "/e/f" from then on, where the mount
      has no entry: what it wrote never reaches the phone, and its flush answers 0. */
  lemma FolderRenameLosesWriter(d: Desk, fh: nat, bytes: seq<Byte>, offset: nat)
    requires OpenBelow(d, fh)
    ensures var o := Mount.Rename(d.w, "/d", "/e"); var d' := StepRename(d, "/d", "/e");
      && o.rc == 0 && d'.open == map[0 := Slot("/e/f", fh)]
      && d'.w.m.dev.store.objects == map[1 := Object(ROOT, "e", true, [])] && d'.w.pending == d.w.pending
      && Write(d'.w, "/e/f", bytes, offset) == Outcome(d'.w, -EROFS)
      && Flush(d'.w, "/e/f", Some(fh)) == Outcome(d'.w, 0)
  {
    hide MovedPath, Write, Flush, Resolve, SplitParent, PlanRename, CarryOut;
    var plan := Plan(1, ROOT, ROOT, "e", None);
    FoldersFound(d, fh);
    PlanOf(d.w, "/d", "/e", plan, d.w);
    OnlyNamed(d, fh, plan);
    MovedExample();
    NoEntryNoWrite(StepRename(d, "/d", "/e").w, "/e/f", Some(fh), bytes, offset);
  }

  lemma FoldersFound(d: Desk, fh: nat)
    requires OpenBelow(d, fh)
    ensures Resolve(d.w, "/d") == Resolved(d.w, Some(1)) && Resolve(d.w, "/e") == Resolved(d.w, None)
    ensures SplitParent("/d") == ("/", "d") && SplitParent("/e") == ("/", "e")
    ensures Resolve(d.w, "/") == Resolved(d.w, Some(ROOT))
  {
    ShortPaths();
    RootSplitsToNothing();
    RootParents();
    LastPartLookups(d.w.tree);
    hide Split, SplitParent, LookupFrom;
    FindsAtOnce(d.w, "/d", 1);
    FindsAtOnce(d.w, "/", ROOT);
    FindsNothing(d.w, "/e");
  }

  lemma LastPartLookups(t: TreeState)
    requires t == TreeState(map[1 := Entry(1, ROOT, "d", true, 0)], map[ROOT := [1]], {ROOT})
    ensures LookupFrom(t, ROOT, ["d"]) == Found(1) && LookupFrom(t, ROOT, []) == Found(ROOT)
    ensures LookupFrom(t, ROOT, ["e"]) == NotFound
  {
    assert "d"[0] != "e"[0];
    assert [1 as Handle][1..] == [] && ["d"][1..] == [] && ["e"][1..] == [];
    assert FirstNamed(t.entries, [1], "d") == Some(1) && FirstNamed(t.entries, [1], "e") == FirstNamed(t.entries, [], "e");
    assert ChildNamed(t, ROOT, "d") == Some(1) && ChildNamed(t, ROOT, "e") == None;
  }

  lemma RootParents()
    ensures SplitParent("/d") == ("/", "d") && SplitParent("/e") == ("/", "e")
  {
    assert "/d"[1..] == "d" && "/e"[1..] == "e";
    assert LastSlash("/d"[..1]) == Some(0) && LastSlash("/e"[..1]) == Some(0);
  }

  lemma OnlyNamed(d: Desk, fh: nat, plan: Plan)
    requires OpenBelow(d, fh) && plan == Plan(1, ROOT, ROOT, "e", None)
    ensures var o := CarryOut(d.w, plan);
      && o.rc == 0 && o.w.pending == d.w.pending
      && o.w.m.dev.store.objects == map[1 := Object(ROOT, "e", true, [])]
  {
    AsTold.Renames(d.w.m, 1, "e");
    assert "d"[0] != "e"[0];
    hide RenameObject;
  }

  lemma MovedExample()
    ensures MovedPath("/d/f", "/d", "/e") == "/e/f" && "/e/f" != "/d/f"
  {
    assert "/d/f"[..2] == "/d" && "/d/f"[2..] == "/f" && "/d/f"[2] == '/';
    assert "/e/f"[1] != "/d/f"[1];
  }

  /** A path without an entry takes no write, and its flush does nothing. */
  lemma NoEntryNoWrite(w: World, path: string, fi: Option<nat>, bytes: seq<Byte>, offset: nat)
    requires path !in w.pending
    ensures Write(w, path, bytes, offset) == Outcome(w, -EROFS) && Flush(w, path, fi) == Outcome(w, 0)
  {
  }

  lemma StepKeeps(d: Desk, c: FsCall)
    requires Kept(d) && Legal(d, c)
    ensures Kept(Step(d, c)) && (Mirrors(d) ==> Mirrors(Step(d, c)))
  {
    hide Kept, Mirrors, StepOpen, StepCreate, StepWrite, StepTruncate, Quiet, IsWriter, NoWriter, Tame,
         RenameStrands;
    match c {
      case OpenFile(id, path, flags) => OpenStep(d, id, path, flags);
      case CreateFile(id, path) => CreateStep(d, id, path);
      case WriteFile(id, bytes, offset) =>
        WriterIsHeld(d, id);
        WriteStep(d, d.open[id].path, bytes, offset);
      case ReadFile(id, want, offset) => ReadStep(d, id, want, offset);
      case FlushFile(id) => FlushStep(d, d.open[id].path, d.open[id].fh);
      case ReleaseFile(id) => ReleaseStep(d, id);
      case TruncatePath(path, size) => TruncateStep(d, path, size);
      case RenamePath(from, to) => RenameStep(d, from, to);
      case RemoveAt(path, wantDir) =>
        KeptIsOk(d);
        RemovePathRemoves(d.w, path, wantDir);
        QuietStep(d, d.(w := RemovePath(d.w, path, wantDir).w));
      case MakeFolderAt(path) =>
        KeptIsOk(d);
        MkdirMakes(d.w, path);
        QuietStep(d, d.(w := Mkdir(d.w, path).w));
      case ListFolder(path) =>
        KeptIsOk(d);
        ReadFolderReads(d.w, path);
        QuietStep(d, d.(w := ReadFolder(d.w, path).w));
    }
  }

  lemma KeptIsOk(d: Desk)
    requires Kept(d)
    ensures BaseOk(d.w)
  {
  }

  lemma WriterIsHeld(d: Desk, id: nat)
    requires Kept(d) && id in d.open && IsWriter(d.open[id])
    ensures d.open[id].path in d.w.pending
  {
  }

  lemma ReadStep(d: Desk, id: nat, want: nat, offset: nat)
    requires Kept(d) && id in d.open && want < 0x1_0000_0000
    ensures var d' := d.(w := Read(d.w, d.open[id].path, want, offset, Some(d.open[id].fh)).w);
      Kept(d') && (Mirrors(d) ==> Mirrors(d'))
  {
    ReadReads(d.w, d.open[id].path, want, offset, Some(d.open[id].fh));
    hide Read, Good, Quiet, IsWriter;
    QuietStep(d, d.(w := Read(d.w, d.open[id].path, want, offset, Some(d.open[id].fh)).w));
  }

  // ----- the laws of whole runs -----

  /** Whatever the run, the index agrees with the device, each spool is as long as its entry
      says, and each open writer has its entry. */
  lemma {:induction false} RunKeeps(d: Desk, calls: seq<FsCall>)
    requires Kept(d) && LegalRun(d, calls)
    ensures Kept(Run(d, calls)) && (Mirrors(d) ==> Mirrors(Run(d, calls)))
    decreases |calls|
  {
    hide Kept, Mirrors, Legal, Step;
    if calls != [] {
      StepKeeps(d, calls[0]);
      RunKeeps(Step(d, calls[0]), calls[1..]);
    }
  }
}
