/** Callback by callback: each keeps the mount good, works on one entry alone, and makes of its
    spool what the call means. `crates/mtpfs/src/main.rs`, lines 656 to 812 and 1031 to 1490. */
module Callbacks {
  import opened Bytes
  import opened Wrappers
  import opened PathTree
  import opened Device
  import opened Backend
  import opened ReadAhead
  import opened World
  import opened Index
  import opened Upkeep
  import Host

  /** While it is whole, the spool of an open write holds `bytes`. */
  ghost predicate Holds(w: World, path: string, bytes: seq<Byte>) {
    path in w.pending && (w.pending[path].broken.None? ==> Host.Contents(w.host, w.pending[path].spool) == bytes)
  }

  // ----- a read of the device -----

  /** `bytes` are a prefix of the range, or the whole of what it holds. */
  ghost predicate IsRange(bytes: seq<Byte>, data: seq<Byte>, offset: nat, want: nat, whole: bool) {
    && |bytes| <= Due(offset, want, |data|)
    && (bytes != [] ==> bytes == data[offset..offset + |bytes|])
    && (whole ==> |bytes| == Due(offset, want, |data|))
  }

  lemma ReadGives(w: World, h: Handle, offset: nat, want: nat)
    requires BaseOk(w) && h in w.m.dev.store.objects && want < 0x1_0000_0000
    ensures var data := w.m.dev.store.objects[h].data; var r := ReadAt(w.m, h, offset, want, |data|);
      && Quiet(w, w.(m := r.m)) && r.m.dev.store == w.m.dev.store
      && (r.bytes.Some? ==> IsRange(r.bytes.value, data, offset, want, Generous(w.m.dev)))
  {
    ReadAtIsSlice(w.m, h, offset, want);
    ReadSteps(w.m, h, offset, want);
    hide Backend.ReadAt, CoherentBut, CacheHolds, NoStall, AllDone, Steps, Generous, Quiet;
    var r := ReadAt(w.m, h, offset, want, |w.m.dev.store.objects[h].data|);
    StepIsQuiet(w, w.(m := r.m), {});
  }

  /** An object that is gone has no bytes to give. */
  lemma GoneGivesNone(w: World, h: Handle, offset: nat, want: nat, size: nat)
    requires BaseOk(w) && h !in w.m.dev.store.objects && want > 0 && offset < size
    ensures var r := ReadAt(w.m, h, offset, want, size);
      Quiet(w, w.(m := r.m)) && r.bytes.None?
  {
    var due := Min(want, size - offset);
    var (first, short) := SplitFinalRead(offset, Min(Max(due, READ_AHEAD), size - offset), size, w.m.packet);
    var r := PartialRead(w.m, h, offset, first);
    assert r.m.dev.store == w.m.dev.store && r.m == w.m.(dev := r.m.dev);
    assert Hit(w.m, h, offset, due).None?;
    assert ReadAt(w.m, h, offset, want, size) == r;
    hide ReadLoop, PartialRead, SplitFinalRead;
    StaysQuietRead(w, r.m);
  }

  lemma StaysQuietRead(w: World, m: MtpState)
    requires BaseOk(w) && m == w.m.(dev := m.dev) && m.dev.store == w.m.dev.store
    requires Generous(w.m.dev) ==> Generous(m.dev)
    ensures Quiet(w, w.(m := m))
  {
    hide CoherentBut;
  }

  // ----- the copy of an object into a spool -----

  /** A turn of the copy reads a piece of the object, and not an empty one from a generous device. */
  lemma CopyTurn(w: World, h: Handle, at: nat)
    requires BaseOk(w) && h in w.m.dev.store.objects && at < |w.m.dev.store.objects[h].data|
    ensures var data := w.m.dev.store.objects[h].data;
      var r := ReadAt(w.m, h, at, Min(READ_CHUNK, |data| - at), |data|);
      && Quiet(w, w.(m := r.m)) && r.m.dev.store == w.m.dev.store
      && (r.bytes.Some? ==> at + |r.bytes.value| <= |data| && r.bytes.value == data[at..at + |r.bytes.value|]
                            && (Generous(w.m.dev) ==> r.bytes.value != []))
  {
    hide Backend.ReadAt, Quiet, BaseOk, Generous;
    ReadGives(w, h, at, Min(READ_CHUNK, |w.m.dev.store.objects[h].data| - at));
  }

  /** What a copy makes of the mount: a prefix of the object in the one spool, the whole of it
      from a generous device. */
  ghost predicate Copies(w: World, c: Copied, spool: nat, data: seq<Byte>) {
    && BaseOk(c.w) && Onward(w.m, c.w.m, {}) && c.w.m.dev.store == w.m.dev.store && c.w.pending == w.pending
    && OnlySpool(w.host, c.w.host, spool)
    && (c.size.Some? ==>
          && c.size.value <= |data| && Host.Contents(c.w.host, spool) == data[..c.size.value]
          && (Generous(w.m.dev) ==> c.size.value == |data|))
  }

  ghost predicate OnlySpool(h: Host.HostState, h': Host.HostState, spool: nat) {
    && h'.count == h.count && spool in h'.files
    && (forall k :: k != spool ==> (k in h'.files <==> k in h.files) && (k in h.files ==> h'.files[k] == h.files[k]))
  }

  lemma CopyEnds(w: World, w': World, size: Option<nat>, spool: nat, data: seq<Byte>)
    requires Quiet(w, w') && w'.m.dev.store == w.m.dev.store && OnlySpool(w.host, w'.host, spool)
    requires size.Some? ==> size.value <= |data| && Host.Contents(w'.host, spool) == data[..size.value]
                            && (Generous(w.m.dev) ==> size.value == |data|)
    ensures Copies(w, Copied(w', size), spool, data)
  {
    hide BaseOk, Onward;
  }

  lemma LaterCopies(w: World, w': World, c: Copied, spool: nat, data: seq<Byte>)
    requires Onward(w.m, w'.m, {}) && w'.m.dev.store == w.m.dev.store && w'.pending == w.pending
    requires OnlySpool(w.host, w'.host, spool) && Copies(w', c, spool, data)
    ensures Copies(w, c, spool, data)
  {
    var none: set<Handle> := {};
    OnwardInTurn(w.m, w'.m, c.w.m, none, none);
    assert none + none == none;
    assert Generous(w.m.dev) ==> Generous(w'.m.dev);
    hide BaseOk, Lasts, Generous;
  }

  lemma {:induction false} CopyLoopCopies(w: World, h: Handle, spool: nat, at: nat)
    requires BaseOk(w) && h in w.m.dev.store.objects && at <= |w.m.dev.store.objects[h].data|
    requires spool in w.host.files && w.host.files[spool] == w.m.dev.store.objects[h].data[..at]
    ensures var data := w.m.dev.store.objects[h].data;
      Copies(w, CopyLoop(w, h, |data|, spool, at), spool, data)
    decreases |w.m.dev.store.objects[h].data| - at
  {
    hide Backend.ReadAt, BaseOk, Onward, Copies, Generous;
    var data := w.m.dev.store.objects[h].data;
    if at >= |data| {
      assert data[..at] == data;
      StaysQuiet(w, w);
      CopyEnds(w, w, Some(at), spool, data);
    } else {
      CopyTurn(w, h, at);
      var r := ReadAt(w.m, h, at, Min(READ_CHUNK, |data| - at), |data|);
      var w1 := w.(m := r.m);
      if r.bytes.None? {
        CopyEnds(w, w1, None, spool, data);
      } else if r.bytes.value == [] {
        CopyEnds(w, w1, Some(at), spool, data);
      } else {
        var put := Host.Append(w1.host, spool, r.bytes.value);
        var w2 := w1.(host := put.h);
        HostAsideOk(w1, w2);
        if put.ok {
          assert data[..at] + data[at..at + |r.bytes.value|] == data[..at + |r.bytes.value|];
          CopyLoopCopies(w2, h, spool, at + |r.bytes.value|);
          LaterCopies(w, w2, CopyLoop(w2, h, |data|, spool, at + |r.bytes.value|), spool, data);
        } else {
          CopyEnds(w, w2, None, spool, data);
        }
      }
    }
  }

  lemma HostAsideOk(w: World, w': World)
    ensures BaseOk(w) && w'.m == w.m && w'.tree == w.tree ==> BaseOk(w')
  {
  }

  // ----- adopt -----

  /** What an adopted entry is. */
  ghost predicate Adopted(w: World, o: Outcome, path: string, h: Handle, entry: Entry, bytes: seq<Byte>) {
    && Works(w, o.w, path)
    && (o.rc == 0 <==> path in o.w.pending)
    && (o.rc == 0 ==>
          var p := o.w.pending[path];
          && EntryOk(o.w, p) && p.spool >= w.host.count
          && p == NewPending(entry.parent, entry.name, p.spool, p.size, Some(h))
          && o.w.m.dev.store == w.m.dev.store
          && (Generous(w.m.dev) || bytes == [] ==> Holds(o.w, path, bytes)))
  }

  /** A handle with the entry a listing gives for it. */
  ghost predicate Known(w: World, h: Handle, entry: Entry) {
    h in w.m.dev.store.objects && entry == EntryOf(w.m.dev.store, h)
  }

  function CopiedBytes(w: World, h: Handle, keep: bool): seq<Byte>
    requires h in w.m.dev.store.objects
  {
    if keep then w.m.dev.store.objects[h].data else []
  }

  lemma AdoptCopies(w: World, h: Handle, entry: Entry, keep: bool, id: nat)
    requires BaseOk(w) && Known(w, h, entry) && id in w.host.files && w.host.files[id] == []
    ensures var c := if keep && entry.size > 0 then CopyLoop(w, h, entry.size, id, 0) else Copied(w, Some(0));
      Copies(w, c, id, CopiedBytes(w, h, keep))
  {
    if keep && entry.size > 0 {
      assert w.m.dev.store.objects[h].data[..0] == [];
      CopyLoopCopies(w, h, id, 0);
    } else {
      hide BaseOk, Onward, Copies;
      StaysQuiet(w, w);
      CopyEnds(w, w, Some(0), id, CopiedBytes(w, h, keep));
    }
  }

  /** The mount once the spool file is made and the copy is in it, or is not. */
  lemma CopiedWorks(w: World, made: World, c: Copied, path: string, bytes: seq<Byte>)
    requires path !in w.pending && Copies(made, c, w.host.count, bytes)
    requires made.m == w.m && made.pending == w.pending
    requires made.host.count == w.host.count + 1 && HostKeeps(w.host, made.host, {})
    ensures Works(w, c.w, path) && path !in c.w.pending
  {
    hide BaseOk, Onward;
  }

  lemma AdoptNowAdopts(w: World, path: string, h: Handle, entry: Entry, keep: bool)
    requires BaseOk(w) && path !in w.pending && Known(w, h, entry)
    ensures Adopted(w, AdoptNow(w, path, h, entry, keep), path, h, entry, CopiedBytes(w, h, keep))
  {
    hide CopyLoop, BaseOk, Onward, Generous, Copies, EntryOk;
    var made := Host.MakeSpool(w.host);
    var w1 := w.(host := made.h);
    HostAsideOk(w, w1);
    var id := w.host.count;
    var bytes := CopiedBytes(w, h, keep);
    if made.id.Some? {
      AdoptCopies(w1, h, entry, keep, id);
      var c := if keep && entry.size > 0 then CopyLoop(w1, h, entry.size, id, 0) else Copied(w1, Some(0));
      CopiedWorks(w, w1, c, path, bytes);
      if c.size.Some? {
        AdoptInserts(w, w1, c, path, h, entry, bytes);
      }
    } else {
      StaysQuiet(w, w1);
      QuietWorks(w, w1, path);
    }
  }

  lemma AdoptInserts(w: World, made: World, c: Copied, path: string, h: Handle, entry: Entry,
                     bytes: seq<Byte>)
    requires BaseOk(w) && path !in w.pending && Known(w, h, entry) && c.size.Some?
    requires made.m == w.m && Copies(made, c, w.host.count, bytes) && made.host.count == w.host.count + 1
    requires Works(w, c.w, path) && path !in c.w.pending
    ensures Adopted(w, Outcome(Inserted(c.w, path, NewPending(entry.parent, entry.name, w.host.count, c.size.value, Some(h))), 0),
                    path, h, entry, bytes)
  {
    var w' := Inserted(c.w, path, NewPending(entry.parent, entry.name, w.host.count, c.size.value, Some(h)));
    assert bytes[..|bytes|] == bytes;
    assert h < w.m.dev.store.next;
    InsertedWorks(w, c.w, path, w'.pending[path]);
    hide BaseOk, Onward, Generous;
  }

  /** A new entry under a path that had none. */
  lemma InsertedWorks(w: World, c: World, path: string, p: Pending)
    requires Works(w, c, path) && path !in w.pending && path !in c.pending && p.spool >= w.host.count
    ensures Works(w, Inserted(c, path, p), path)
  {
    HostAsideOk(c, Inserted(c, path, p));
    hide BaseOk, Onward;
  }

  lemma LaterAdopted(w: World, w1: World, o: Outcome, path: string, h: Handle, entry: Entry, bytes: seq<Byte>)
    requires Quiet(w, w1) && w1.m.dev.store == w.m.dev.store && Adopted(w1, o, path, h, entry, bytes)
    ensures Adopted(w, o, path, h, entry, bytes)
  {
    QuietWorks(w, w1, path);
    WorksInTurn(w, w1, o.w, path);
    hide BaseOk, Works, Lasts, Generous, Holds, EntryOk;
  }

  lemma AdoptAdopts(w: World, path: string, h: Handle, entry: Entry, keep: bool)
    requires BaseOk(w) && path !in w.pending && Known(w, h, entry)
    ensures Adopted(w, AdoptForWrite(w, path, h, entry, keep), path, h, entry, CopiedBytes(w, h, keep))
  {
    hide AdoptNow, Adopted, Works, BaseOk;
    if keep && entry.size > 0 {
      var w1 := w.(host := Host.Used(w.host));
      StaysQuiet(w, w1);
      AdoptNowAdopts(w1, path, h, entry, keep);
      LaterAdopted(w, w1, AdoptNow(w1, path, h, entry, keep), path, h, entry, CopiedBytes(w, h, keep));
      QuietWorks(w, w1, path);
      NotAdopted(w, w1, path, h, entry, CopiedBytes(w, h, keep));
    } else {
      AdoptNowAdopts(w, path, h, entry, keep);
    }
  }

  /** A copy writes into its own spool and nowhere else. */
  lemma {:induction false} CopyKeepsRest(w: World, h: Handle, size: nat, spool: nat, at: nat)
    ensures var w' := CopyLoop(w, h, size, spool, at).w;
      && w'.pending == w.pending && w'.host.count == w.host.count
      && (spool in w.host.files ==> w'.host.files.Keys == w.host.files.Keys)
    decreases size - at
  {
    hide ReadAt;
    if at < size {
      var r := ReadAt(w.m, h, at, Min(READ_CHUNK, size - at), size);
      if r.bytes.Some? && r.bytes.value != [] {
        var put := Host.Append(w.host, spool, r.bytes.value);
        if put.ok {
          CopyKeepsRest(w.(m := r.m, host := put.h), h, size, spool, at + |r.bytes.value|);
        }
      }
    }
  }

  /** An adoption takes one number, for its spool. */
  lemma AdoptCounts(w: World, path: string, h: Handle, entry: Entry, keep: bool)
    ensures AdoptForWrite(w, path, h, entry, keep).rc == 0 && path !in w.pending ==>
      AdoptForWrite(w, path, h, entry, keep).w.host.count == w.host.count + 1
  {
    hide CopyLoop;
    var w1 := if keep && entry.size > 0 then w.(host := Host.Used(w.host)) else w;
    var made := Host.MakeSpool(w1.host);
    CopyKeepsRest(w1.(host := made.h), h, entry.size, w.host.count, 0);
  }

  lemma NotAdopted(w: World, w1: World, path: string, h: Handle, entry: Entry, bytes: seq<Byte>)
    requires Works(w, w1, path) && path !in w1.pending
    ensures Adopted(w, Outcome(w1, -ENOSPC), path, h, entry, bytes)
  {
    hide Works;
  }

  /** A file that is larger than the room of the spool folder is refused at once, and for no
      other reason; the device is asked for nothing. */
  lemma AdoptRefusesIff(w: World, path: string, h: Handle, entry: Entry, keep: bool)
    ensures var o := AdoptForWrite(w, path, h, entry, keep); var free := Host.Now(w.host).free;
      && (o.rc == -ENOSPC <==> keep && free.Some? && entry.size > free.value)
      && (o.rc == -ENOSPC ==> o.w == w.(host := Host.Used(w.host)))
  {
    AdoptNowAnswers(w, path, h, entry, keep);
    AdoptNowAnswers(w.(host := Host.Used(w.host)), path, h, entry, keep);
    hide AdoptNow;
  }

  lemma AdoptNowAnswers(w: World, path: string, h: Handle, entry: Entry, keep: bool)
    ensures AdoptNow(w, path, h, entry, keep).rc in {0, -EIO}
  {
    hide CopyLoop, Inserted;
  }

  // ----- open -----

  /** The bytes of the object a path names on the device. */
  function ObjectBytes(s: Store, path: string): seq<Byte> {
    match Walk(s, ROOT, Split(path))
    case Some(h) => if h in s.objects then s.objects[h].data else []
    case None => []
  }

  /** The entry an `open` or a `truncate` makes for the object a path names. */
  ghost predicate ForObject(p: Pending, s: Store, path: string) {
    && p.replaced == Walk(s, ROOT, Split(path))
    && p.replaced.Some? && p.replaced.value in s.objects
    && p.parent == s.objects[p.replaced.value].parent && p.name == s.objects[p.replaced.value].name
  }

  /** A new entry for the object the path names, with its bytes or with none. */
  ghost predicate OpenedAnew(w: World, w': World, path: string, bytes: seq<Byte>) {
    && path in w'.pending && EntryOk(w', w'.pending[path]) && w'.m.dev.store == w.m.dev.store
    && w'.pending[path].sent.None? && w'.pending[path].broken.None? && w'.pending[path].spool >= w.host.count
    && ForObject(w'.pending[path], w.m.dev.store, path)
    && (Generous(w.m.dev) || bytes == [] ==> Holds(w', path, bytes))
  }

  function FlagsOf(fi: Option<nat>): nat {
    if fi.Some? then fi.value else 0
  }

  lemma AdoptedIsAnew(w: World, o: Outcome, path: string, h: Handle, entry: Entry, keep: bool)
    requires Known(w, h, entry) && Adopted(w, o, path, h, entry, CopiedBytes(w, h, keep))
    requires Walk(w.m.dev.store, ROOT, Split(path)) == Some(h)
    ensures path in o.w.pending ==> OpenedAnew(w, o.w, path, if keep then ObjectBytes(w.m.dev.store, path) else [])
  {
    hide Works, EntryOk, Walk, Generous, Holds;
  }

  /** An `open` that adopts the object gives an entry with its bytes; any other leaves every
      entry alone. A writer that is let in has an entry, and a mark. */
  ghost predicate Opens(w: World, r: Opened, path: string, fi: Option<nat>) {
    && Works(w, r.w, path)
    && (path in w.pending || !FlagWrites(FlagsOf(fi)) ==> Quiet(w, r.w))
    && (path !in w.pending && path in r.w.pending ==>
          OpenedAnew(w, r.w, path, if FlagTruncates(FlagsOf(fi)) then [] else ObjectBytes(w.m.dev.store, path)))
    && (path !in w.pending && path in r.w.pending ==> r.rc == 0)
    && (r.rc == 0 && FlagWrites(FlagsOf(fi)) ==> path in r.w.pending)
    && (r.rc == 0 && fi.Some? ==> r.fh.Some? && (FhMarked(r.fh.value) <==> FlagWrites(FlagsOf(fi))))
  }

  lemma QuietOpens(w: World, r: Opened, path: string, fi: Option<nat>)
    requires Quiet(w, r.w)
    requires r.rc == 0 && FlagWrites(FlagsOf(fi)) ==> path in w.pending
    requires r.rc == 0 && fi.Some? ==> r.fh.Some? && (FhMarked(r.fh.value) <==> FlagWrites(FlagsOf(fi)))
    ensures Opens(w, r, path, fi)
  {
    QuietWorks(w, r.w, path);
    hide Works, BaseOk, FlagWrites, FlagTruncates, FhMarked, Onward, HostKeeps;
  }

  lemma AdoptOpens(w: World, o: Outcome, r: Opened, path: string, fi: Option<nat>, h: Handle, entry: Entry)
    requires path !in w.pending && Known(w, h, entry) && Walk(w.m.dev.store, ROOT, Split(path)) == Some(h)
    requires FlagWrites(FlagsOf(fi)) && Adopted(w, o, path, h, entry, CopiedBytes(w, h, !FlagTruncates(FlagsOf(fi))))
    requires r.w == o.w && r.rc == o.rc
    requires r.rc == 0 && fi.Some? ==> r.fh.Some? && FhMarked(r.fh.value)
    ensures Opens(w, r, path, fi)
  {
    AdoptedIsAnew(w, o, path, h, entry, !FlagTruncates(FlagsOf(fi)));
    AdoptedWorks(w, o, path, h, entry, CopiedBytes(w, h, !FlagTruncates(FlagsOf(fi))));
    hide Works, BaseOk, FlagWrites, FlagTruncates, FhMarked, Adopted, OpenedAnew, Walk;
  }

  lemma OpenOpens(w: World, path: string, fi: Option<nat>)
    requires BaseOk(w)
    ensures Opens(w, Open(w, path, fi), path, fi)
  {
    hide Resolve, Works, Quiet, BaseOk, Walk, FlagWrites, FlagTruncates, AdoptForWrite, FhMarked,
         Adopted, Opens;
    var flags := FlagsOf(fi);
    var found := Resolve(w, path);
    ResolveKeeps(w, path);
    var r := Open(w, path, fi);
    if found.h.None? {
      QuietOpens(w, r, path, fi);
    } else if found.h.value == ROOT {
      RootEntry(w, found.w);
      QuietOpens(w, r, path, fi);
    } else {
      ResolvedEntry(w, path);
      MarkAndHandle(found.h.value);
      OpenFound(w, found.w, path, fi, found.h.value);
    }
  }

  lemma OpenAnswers(w: World, path: string, fi: Option<nat>)
    ensures var rc := Open(w, path, fi).rc; var f := Resolve(w, path);
      if f.h.None? then rc == -ENOENT
      else
        var entry := EntryAt(f.w.tree, f.h.value);
        if entry.None? || entry.value.isDir then rc == -EISDIR else rc in {0, -EIO, -ENOSPC}
  {
    hide Resolve, FlagWrites, FlagTruncates, AdoptForWrite;
    var f := Resolve(w, path);
    if f.h.Some? && EntryAt(f.w.tree, f.h.value).Some? {
      AdoptAnswers(f.w, path, f.h.value, EntryAt(f.w.tree, f.h.value).value, !FlagTruncates(FlagsOf(fi)));
    }
  }

  /** An `open` answers ENOENT exactly when `resolve` gives nothing, and EISDIR exactly when it
      gives the root or a folder; a file gets neither. */
  lemma OpenFaultsIff(w: World, path: string, fi: Option<nat>)
    requires BaseOk(w)
    ensures var rc := Open(w, path, fi).rc; var h := Resolve(w, path).h;
      && (rc == -ENOENT <==> h.None?)
      && (rc == -EISDIR <==> h.Some? && IsFolder(w.m.dev.store, h.value))
  {
    OpenAnswers(w, path, fi);
    ResolveKeeps(w, path);
    ResolvedEntry(w, path);
    RootEntry(w, Resolve(w, path).w);
    hide Resolve, BaseOk, Walk, Open, Quiet, OnlyListed, LookupFrom;
  }

  lemma AdoptAnswers(w: World, path: string, h: Handle, entry: Entry, keep: bool)
    ensures AdoptForWrite(w, path, h, entry, keep).rc in {0, -EIO, -ENOSPC}
  {
    AdoptNowAnswers(w, path, h, entry, keep);
    AdoptNowAnswers(w.(host := Host.Used(w.host)), path, h, entry, keep);
    hide AdoptNow;
  }

  lemma RootEntry(w: World, w': World)
    requires Quiet(w, w')
    ensures EntryAt(w'.tree, ROOT).None?
  {
  }

  /** An `open` of a path that names an object. */
  lemma OpenFound(w: World, f: World, path: string, fi: Option<nat>, h: Handle)
    requires Quiet(w, f) && Resolve(w, path) == Resolved(f, Some(h)) && f.m.dev.store == w.m.dev.store
    requires f.pending == w.pending && Walk(w.m.dev.store, ROOT, Split(path)) == Some(h)
    requires h in w.m.dev.store.objects && EntryAt(f.tree, h) == Some(EntryOf(w.m.dev.store, h))
    ensures Opens(w, Open(w, path, fi), path, fi)
  {
    hide Resolve, Works, BaseOk, Walk, FlagWrites, FlagTruncates, AdoptForWrite, FhMarked, Adopted,
         Opens, Onward;
    var flags := FlagsOf(fi);
    var entry := EntryOf(w.m.dev.store, h);
    var r := Open(w, path, fi);
    MarkAndHandle(h);
    if !entry.isDir && FlagWrites(flags) && path !in w.pending {
      var keep := !FlagTruncates(flags);
      var o := AdoptForWrite(f, path, h, entry, keep);
      AdoptAdopts(f, path, h, entry, keep);
      LaterAdopted(w, f, o, path, h, entry, CopiedBytes(w, h, keep));
      AdoptOpens(w, o, r, path, fi, h, entry);
    } else {
      QuietOpens(w, r, path, fi);
    }
  }

  lemma AdoptedWorks(w: World, o: Outcome, path: string, h: Handle, entry: Entry, bytes: seq<Byte>)
    requires Adopted(w, o, path, h, entry, bytes)
    ensures Works(w, o.w, path) && (o.rc == 0 <==> path in o.w.pending)
  {
  }

  // ----- create and write -----

  /** An entry takes the place of the one a path had, whose spool may go. */
  lemma ReplacedWorks(w: World, w': World, path: string, p: Pending)
    requires BaseOk(w) && w'.m == w.m && w'.tree == w.tree && HostKeeps(w.host, w'.host, SpoolOf(w, path))
    requires w'.pending == w.pending[path := p]
    requires p.spool >= w.host.count || (path in w.pending && p.spool == w.pending[path].spool)
    ensures Works(w, w', path)
  {
    HostAsideOk(w, w');
    StaysQuiet(w, w);
    hide BaseOk, Lasts, Generous;
  }

  /** A new file is an empty entry that replaces nothing; a fault makes none. */
  ghost predicate Creates(w: World, r: Opened, path: string, fi: Option<nat>) {
    && Works(w, r.w, path)
    && (r.rc != 0 ==> Quiet(w, r.w))
    && (r.rc == 0 ==>
          && path in r.w.pending && EntryOk(r.w, r.w.pending[path]) && Holds(r.w, path, [])
          && r.w.pending[path].sent.None? && r.w.pending[path].replaced.None?
          && Walk(w.m.dev.store, ROOT, Split(SplitParent(path).0)) == Some(r.w.pending[path].parent)
          && r.w.pending[path].name == SplitParent(path).1
          && r.w.pending[path].spool >= w.host.count)
    && (r.rc == 0 && fi.Some? ==> r.fh.Some? && FhMarked(r.fh.value))
  }

  lemma QuietCreates(w: World, r: Opened, path: string, fi: Option<nat>)
    requires Quiet(w, r.w) && r.rc != 0
    ensures Creates(w, r, path, fi)
  {
    QuietWorks(w, r.w, path);
    hide BaseOk, Onward, Works;
  }

  lemma MadeCreates(w: World, f: World, r: Opened, path: string, fi: Option<nat>, parent: Handle,
                    name: string)
    requires Quiet(w, f) && r.rc == 0 && (path in w.pending ==> w.pending[path].spool < w.host.count)
    requires var made := Host.MakeSpool(f.host);
      made.id.Some? && r.w == Inserted(f.(host := made.h), path, NewPending(parent, name, made.id.value, 0, None))
    requires fi.Some? ==> r.fh.Some? && FhMarked(r.fh.value)
    requires Walk(w.m.dev.store, ROOT, Split(SplitParent(path).0)) == Some(parent) && name == SplitParent(path).1
    ensures Creates(w, r, path, fi)
  {
    hide Walk, SplitParent, Split;
    assert f.host.count == Host.MakeSpool(f.host).id.value;
    QuietWorks(w, f, path);
    hide BaseOk, Onward, FhMarked, Works;
    ReplacedWorks(f, r.w, path, r.w.pending[path]);
    WorksInTurn(w, f, r.w, path);
  }

  /** A `create` in a folder that was found. */
  lemma CreateInFolder(w: World, f: World, path: string, fi: Option<nat>, parent: Handle)
    requires Quiet(w, f) && Resolve(w, SplitParent(path).0) == Resolved(f, Some(parent)) && SplitParent(path).1 != ""
    requires Walk(w.m.dev.store, ROOT, Split(SplitParent(path).0)) == Some(parent)
    requires path in w.pending ==> w.pending[path].spool < w.host.count
    ensures Creates(w, Create(w, path, fi), path, fi)
  {
    hide Resolve, BaseOk, SplitParent, FhMarked, Works, Walk, Quiet, Split, Creates, Inserted;
    var r := Create(w, path, fi);
    var made := Host.MakeSpool(f.host);
    MarkAndHandle(ROOT);
    if made.id.None? {
      QuietIsOk(w, f);
      StaysQuiet(f, f.(host := made.h));
      QuietInTurn(w, f, r.w);
      QuietCreates(w, r, path, fi);
    } else {
      MadeCreates(w, f, r, path, fi, parent, SplitParent(path).1);
    }
  }

  lemma CreateCreates(w: World, path: string, fi: Option<nat>)
    requires Good(w)
    ensures Creates(w, Create(w, path, fi), path, fi)
  {
    assert path in w.pending ==> EntryOk(w, w.pending[path]);
    hide Resolve, BaseOk, SplitParent, FhMarked, Works, Walk, Quiet, Split, Creates, LookupFrom,
         Placed, SpoolsApart;
    var r := Create(w, path, fi);
    if SplitParent(path).1 == "" {
      StaysQuiet(w, w);
      QuietCreates(w, r, path, fi);
    } else {
      ResolveKeeps(w, SplitParent(path).0);
      var f := Resolve(w, SplitParent(path).0);
      if f.h.None? {
        QuietCreates(w, r, path, fi);
      } else {
        CreateInFolder(w, f.w, path, fi, f.h.value);
      }
    }
  }

  /** A write reaches the one entry, and splices its bytes into the spool. */
  lemma WriteWrites(w: World, path: string, bytes: seq<Byte>, offset: nat, was: seq<Byte>)
    requires Good(w) && path in w.pending
    requires bytes != [] || offset <= w.pending[path].size
    ensures var o := Write(w, path, bytes, offset);
      && Works(w, o.w, path) && path in o.w.pending && EntryOk(o.w, o.w.pending[path])
      && o.w.pending[path] == w.pending[path].(size := o.w.pending[path].size, broken := o.w.pending[path].broken)
      && (Holds(w, path, was) ==> Holds(o.w, path, Host.Splice(was, offset, bytes)))
  {
    var p := w.pending[path];
    assert EntryOk(w, p);
    WriteEntry(w, path, bytes, offset, was);
    hide Write, BaseOk, EntryOk, Works, Holds, Host.Splice;
    var o := Write(w, path, bytes, offset);
    ReplacedWorks(w, o.w, path, o.w.pending[path]);
  }

  lemma WriteEntry(w: World, path: string, bytes: seq<Byte>, offset: nat, was: seq<Byte>)
    requires path in w.pending && EntryOk(w, w.pending[path])
    requires bytes != [] || offset <= w.pending[path].size
    ensures var o := Write(w, path, bytes, offset);
      && o.w.m == w.m && o.w.tree == w.tree && path in o.w.pending && EntryOk(o.w, o.w.pending[path])
      && HostKeeps(w.host, o.w.host, SpoolOf(w, path))
      && o.w.pending == w.pending[path := o.w.pending[path]]
      && o.w.pending[path] == w.pending[path].(size := o.w.pending[path].size, broken := o.w.pending[path].broken)
      && (Holds(w, path, was) ==> Holds(o.w, path, Host.Splice(was, offset, bytes)))
  {
    hide Host.WriteLoop, Host.Splice, AsI32;
    var p := w.pending[path];
    Host.WriteLoopSplices(w.host, p.spool, offset, bytes);
    Host.SpliceLength(w.host.files[p.spool], offset, bytes);
    assert w.pending[path := p] == w.pending;
  }

  /** An unbroken entry keeps its size right exactly when the write brings bytes or starts
      inside the file: a write of none past the end raises the size and not the file. */
  lemma WriteKeepsSizeIff(w: World, path: string, bytes: seq<Byte>, offset: nat)
    requires Good(w) && path in w.pending && w.pending[path].broken.None?
    requires Host.WriteLoop(w.host, w.pending[path].spool, offset, bytes).end.Whole?
    ensures var o := Write(w, path, bytes, offset);
      path in o.w.pending
      && (o.w.pending[path].size == |Host.Contents(o.w.host, o.w.pending[path].spool)|
          <==> bytes != [] || offset <= w.pending[path].size)
  {
    var p := w.pending[path];
    assert EntryOk(w, p);
    Host.WriteLoopSplices(w.host, p.spool, offset, bytes);
    Host.SpliceLength(w.host.files[p.spool], offset, bytes);
    hide Host.WriteLoop, Host.Splice, BaseOk, Placed, AsI32;
  }

  /** A write of no bytes at offset 3 of an empty file: it answers 0, the entry says 3, and the
      file holds nothing. */
  lemma EmptyWritePastEnd(w: World)
    requires w.pending == map["/a" := NewPending(ROOT, "a", 0, 0, None)] && w.host.files == map[0 := []]
    ensures var o := Write(w, "/a", [], 3);
      && o.rc == 0 && "/a" in o.w.pending && o.w.pending["/a"] == NewPending(ROOT, "a", 0, 3, None)
      && o.w.host.files == map[0 := []]
  {
  }

  /** A change of size of an open file reaches the one entry. */
  lemma TruncateOpenCuts(w: World, path: string, size: nat, was: seq<Byte>)
    requires Good(w) && path in w.pending
    ensures var o := TruncateOpen(w, path, size);
      && Works(w, o.w, path) && path in o.w.pending && EntryOk(o.w, o.w.pending[path])
      && o.w.pending[path] == w.pending[path].(size := o.w.pending[path].size)
      && (Holds(w, path, was) ==> Holds(o.w, path, if o.rc == 0 then Host.Resize(was, size) else was))
  {
    var p := w.pending[path];
    assert EntryOk(w, p);
    hide BaseOk, Placed, Works;
    var o := TruncateOpen(w, path, size);
    assert w.pending[path := p] == w.pending;
    ReplacedWorks(w, o.w, path, o.w.pending[path]);
  }

  // ----- flush and release -----

  /** The mount a send works on holds every entry but the one that is sent. */
  function Without(w: World, path: string): World {
    w.(pending := w.pending - {path})
  }

  lemma WithoutIsOk(w: World, path: string)
    ensures BaseOk(w) ==> BaseOk(Without(w, path))
  {
  }

  /** The send of one entry, put back or dropped. */
  lemma SentWorks(w: World, path: string, s: Sent, w': World)
    requires path in w.pending && Sends(Without(w, path), w.pending[path], s)
    requires w'.m == s.w.m && w'.tree == s.w.tree && w'.host.count == s.w.host.count
    requires w'.host.files == s.w.host.files || w'.host.files == s.w.host.files - {w.pending[path].spool}
    requires w'.pending == s.w.pending || (path in w'.pending && w'.pending == s.w.pending[path := w'.pending[path]])
    requires path in w'.pending ==> w'.pending[path].spool == w.pending[path].spool
    ensures Works(w, w', path)
  {
    HostAsideOk(s.w, w');
    hide BaseOk, Onward, Placed;
  }

  lemma SentEntry(w: World, p: Pending, s: Sent, w': World, rc: int)
    requires EntryOk(w, p) && w.host.files == w'.host.files && Sends(w, p, s)
    requires w'.m == s.w.m && w'.host == s.w.host
    ensures EntryOk(w', s.p.(sent := Some(rc)))
  {
    hide BaseOk, Onward;
  }

  /** What a `flush` makes of the mount: nothing for a reader, or for a path no one writes; and
      else an entry that keeps its answer, sent now or before. */
  ghost predicate Flushes(w: World, o: Outcome, path: string, fi: Option<nat>) {
    && (!FhWrites(fi) || path !in w.pending ==> o == Outcome(w, 0))
    && (FhWrites(fi) && path in w.pending ==>
          && path in o.w.pending && o.w.pending[path].sent == Some(o.rc) && EntryOk(o.w, o.w.pending[path])
          && o.w.host.files == w.host.files
          && o.w.pending[path] == w.pending[path].(sent := Some(o.rc), replaced := o.w.pending[path].replaced,
                                                   keepSpool := o.w.pending[path].keepSpool)
          && (w.pending[path].sent.Some? ==> o == Outcome(w, w.pending[path].sent.value)))
  }

  lemma FlushFlushes(w: World, path: string, fi: Option<nat>)
    requires Good(w)
    ensures var o := Flush(w, path, fi); Works(w, o.w, path) && Flushes(w, o, path, fi)
  {
    StaysQuiet(w, w);
    QuietWorks(w, w, path);
    hide FhWrites;
    if FhWrites(fi) && path in w.pending {
      var p := w.pending[path];
      assert EntryOk(w, p);
      assert (w.pending - {path})[path := p] == w.pending;
      WithoutIsOk(w, path);
      SendPendingSends(Without(w, path), p);
      if p.sent.None? {
        hide SendPending, Works, EntryOk, BaseOk, Onward, Placed;
        var s := SendPending(Without(w, path), p);
        var o := Flush(w, path, fi);
        assert o.w.pending == s.w.pending[path := s.p.(sent := Some(s.rc))];
        SentWorks(w, path, s, o.w);
        WithoutEntry(w, path, p);
        SentEntry(Without(w, path), p, s, o.w, s.rc);
      }
    }
  }

  lemma WithoutEntry(w: World, path: string, p: Pending)
    requires EntryOk(w, p)
    ensures EntryOk(Without(w, path), p)
  {
  }

  /** A `release` by a writer takes the entry out; one by a reader does nothing. */
  lemma ReleaseReleases(w: World, path: string, fi: Option<nat>)
    requires Good(w)
    ensures var o := Release(w, path, fi);
      && Works(w, o.w, path) && o.rc == 0
      && (if FhWrites(fi) then path !in o.w.pending else o.w == w)
  {
    StaysQuiet(w, w);
    QuietWorks(w, w, path);
    hide FhWrites;
    if FhWrites(fi) && path in w.pending {
      var p := w.pending[path];
      assert EntryOk(w, p);
      WithoutIsOk(w, path);
      SendPendingSends(Without(w, path), p);
      StaysQuiet(Without(w, path), Without(w, path));
      hide SendPending, Works, EntryOk, BaseOk, Onward, Placed;
      var o := Release(w, path, fi);
      var s := if p.sent.Some? then Sent(Without(w, path), p, 0) else SendPending(Without(w, path), p);
      EntryPlaced(w, p);
      SentWorks(w, path, s, o.w);
    }
  }

  lemma EntryPlaced(w: World, p: Pending)
    requires EntryOk(w, p)
    ensures Placed(p, w.m.dev.store)
  {
  }

  // ----- read -----

  /** A read of an open write gives what its spool holds. */
  lemma ReadPendingReads(w: World, p: Pending, want: nat, offset: nat)
    requires BaseOk(w) && EntryOk(w, p)
    ensures var r := ReadPending(w, p, want, offset);
      && Quiet(w, r.w)
      && (r.r.Success? ==> |r.r.value| <= Due(offset, want, p.size))
      && (p.broken.None? && r.r.Success? ==>
            IsRange(r.r.value, Host.Contents(w.host, p.spool), offset, want, Host.Now(w.host).moved >= want))
  {
    hide BaseOk, Quiet;
    var r := ReadPending(w, p, want, offset);
    StaysQuiet(w, r.w);
  }

  /** A read of an object gives its slice, whatever the tree has forgotten since. */
  lemma ReadObjectReads(w: World, h: Handle, want: nat, offset: nat)
    requires BaseOk(w) && want < 0x1_0000_0000
    ensures var r := ReadObject(w, h, want, offset);
      && Quiet(w, r.w)
      && (h in w.m.dev.store.objects && r.r.Success? ==>
            IsRange(r.r.value, w.m.dev.store.objects[h].data, offset, want, Generous(w.m.dev)))
      && (h !in w.m.dev.store.objects && r.r.Success? ==> r.r.value == [])
  {
    hide Backend.ReadAt, Quiet, Generous, ListingHolds;
    var entry := EntryAt(w.tree, h);
    StaysQuiet(w, w);
    if entry.Some? && offset < entry.value.size {
      var due := Min(want, entry.value.size - offset);
      if h in w.m.dev.store.objects {
        ReadGives(w, h, offset, due);
      } else if due > 0 {
        GoneGivesNone(w, h, offset, due, entry.value.size);
      } else {
        NothingWanted(w.m, h, offset, entry.value.size);
      }
    }
  }

  lemma NothingWanted(m: MtpState, h: Handle, offset: nat, size: nat)
    ensures ReadAt(m, h, offset, 0, size) == ReadResult(m, Some([]))
  {
  }

  /** A read leaves every entry alone. Of a path that is open for writing it gives the spool,
      and else the object of the handle. */
  lemma ReadReads(w: World, path: string, want: nat, offset: nat, fi: Option<nat>)
    requires Good(w) && want < 0x1_0000_0000
    ensures var r := Read(w, path, want, offset, fi);
      && Quiet(w, r.w)
      && (path in w.pending && r.r.Success? ==> |r.r.value| <= Due(offset, want, w.pending[path].size))
      && (path in w.pending && w.pending[path].broken.None? && r.r.Success? ==>
            IsRange(r.r.value, Host.Contents(w.host, w.pending[path].spool), offset, want, Host.Now(w.host).moved >= want))
      && (path !in w.pending && fi.Some? && FhHandle(fi.value) in w.m.dev.store.objects && r.r.Success? ==>
            IsRange(r.r.value, w.m.dev.store.objects[FhHandle(fi.value)].data, offset, want, Generous(w.m.dev)))
      && (path !in w.pending && (fi.None? || FhHandle(fi.value) == 0) && r.r.Success? && r.r.value != [] ==>
            IsRange(r.r.value, ObjectBytes(w.m.dev.store, path), offset, want, false))
  {
    hide ReadPending, ReadObject, Quiet, Resolve, EntryOk, IsRange, FhHandle, Generous, SpoolsApart, Walk;
    if path in w.pending {
      ReadPendingReads(w, w.pending[path], want, offset);
    } else if fi.Some? && FhHandle(fi.value) != 0 {
      ReadObjectReads(w, FhHandle(fi.value), want, offset);
    } else {
      RootIsNoObject(w);
      ResolveKeeps(w, path);
      var found := Resolve(w, path);
      if found.h.Some? {
        QuietIsOk(w, found.w);
        ReadObjectReads(found.w, found.h.value, want, offset);
        QuietInTurn(w, found.w, Read(w, path, want, offset, fi).w);
        LessWhole(Read(w, path, want, offset, fi).r, w.m.dev.store, found.h.value, offset, want, Generous(found.w.m.dev));
      }
    }
  }

  lemma LessWhole(r: Result<seq<Byte>, int>, s: Store, h: Handle, offset: nat, want: nat, whole: bool)
    requires r.Success? && h in s.objects ==> IsRange(r.value, s.objects[h].data, offset, want, whole)
    ensures r.Success? && h in s.objects ==> IsRange(r.value, s.objects[h].data, offset, want, false)
  {
  }

  lemma QuietIsOk(w: World, w': World)
    requires Quiet(w, w')
    ensures BaseOk(w')
  {
  }

  lemma RootIsNoObject(w: World)
    requires BaseOk(w)
    ensures ROOT !in w.m.dev.store.objects
  {
  }

  // ----- folders -----

  /** A change to a folder whose listing is then forgotten. */
  lemma ForgottenIsQuiet(w: World, w1: World, folder: Handle, touched: set<Handle>)
    requires BaseOk(w) && Steps(w.m, w1.m, touched, {}) && touched <= {folder}
    requires w1 == w.(m := w1.m)
    ensures Quiet(w, Forgot(w1, folder))
  {
    StepLeavesStale(w, w1, {}, touched, {});
    assert {} + touched == touched;
    ForgottenIsFresh(w1, touched, folder);
    StepIsOnward(w.m, w1.m, touched, {});
    hide BaseBut, Onward, Steps;
  }

  /** A removal takes away the one object the path names, of the kind that was meant; a fault
      takes away none. */
  ghost predicate Removes(w: World, o: Outcome, path: string, wantDir: bool) {
    var objects, objects' := w.m.dev.store.objects, o.w.m.dev.store.objects;
    && Quiet(w, o.w)
    && (o.rc != 0 ==> objects' == objects)
    && (o.rc == 0 ==>
          var h := Walk(w.m.dev.store, ROOT, Split(path));
          h.Some? && h.value in objects && objects[h.value].isDir == wantDir && objects' == objects - {h.value})
    && (o.rc == -ENOTDIR || o.rc == -EISDIR ==>
          var h := Walk(w.m.dev.store, ROOT, Split(path));
          h.Some? && h.value in objects && objects[h.value].isDir != wantDir)
  }

  lemma RemovePathRemoves(w: World, path: string, wantDir: bool)
    requires BaseOk(w)
    ensures Removes(w, RemovePath(w, path, wantDir), path, wantDir)
  {
    hide Resolve, DeleteObject, Quiet, BaseOk, FolderOf, Steps, Walk;
    ResolveKeeps(w, path);
    ResolvedEntry(w, path);
    var f := Resolve(w, path);
    QuietIsOk(w, f.w);
    if f.h.Some? && f.h.value != ROOT {
      var h := f.h.value;
      var t := DeleteObject(f.w.m, h);
      DeletesOne(f.w.m, h);
      OkStore(f.w);
      DeleteSteps(f.w.m, h);
      FolderIs(f.w.m.dev.store, h);
      var w1 := f.w.(m := t.m);
      if t.ok {
        ForgottenIsQuiet(f.w, w1, f.w.m.dev.store.objects[h].parent, FolderOf(f.w.m.dev.store, h));
        QuietInTurn(w, f.w, Forgot(w1, f.w.m.dev.store.objects[h].parent));
      } else {
        StepIsQuiet(f.w, w1, {});
        QuietInTurn(w, f.w, w1);
      }
    }
  }

  lemma DeletesOne(m: MtpState, h: Handle)
    ensures var t := DeleteObject(m, h);
      t.m.dev.store.objects == if t.ok then m.dev.store.objects - {h} else m.dev.store.objects
  {
  }

  lemma OkStore(w: World)
    requires BaseOk(w)
    ensures WfStore(w.m.dev.store)
  {
  }

  lemma FolderIs(s: Store, h: Handle)
    requires h in s.objects
    ensures FolderOf(s, h) == {s.objects[h].parent}
  {
  }

  /** A new folder is in the folder the path names it in, and nothing else changes. */
  ghost predicate Makes(w: World, o: Outcome, path: string) {
    var s, s' := w.m.dev.store, o.w.m.dev.store;
    && Quiet(w, o.w)
    && (o.rc != 0 ==> s'.objects == s.objects)
    && (o.rc == 0 ==>
          var parent := Walk(s, ROOT, Split(SplitParent(path).0));
          parent.Some? && 0 < s.next < 0x1_0000_0000
          && s'.objects == s.objects[s.next := Object(parent.value, SplitParent(path).1, true, [])])
  }

  lemma MkdirMakes(w: World, path: string)
    requires BaseOk(w)
    ensures Makes(w, Mkdir(w, path), path)
  {
    hide Resolve, MakeFolder, Quiet, BaseOk, Steps, SplitParent, Walk;
    var (dir, name) := SplitParent(path);
    StaysQuiet(w, w);
    ResolveKeeps(w, dir);
    var f := Resolve(w, dir);
    QuietIsOk(w, f.w);
    if name != "" && f.h.Some? {
      var t := MakeFolder(f.w.m, f.h.value, name);
      MakesOne(f.w.m, f.h.value, name);
      OkStore(f.w);
      MakeFolderSteps(f.w.m, f.h.value, name);
      var w1 := f.w.(m := t.m);
      if t.ok {
        ForgottenIsQuiet(f.w, w1, f.h.value, {f.h.value});
        QuietInTurn(w, f.w, Forgot(w1, f.h.value));
      } else {
        StepIsQuiet(f.w, w1, {});
        QuietInTurn(w, f.w, w1);
      }
    }
  }

  lemma MakesOne(m: MtpState, parent: Handle, name: string)
    ensures var t := MakeFolder(m, parent, name); var s := m.dev.store;
      if t.ok then
        0 < s.next < 0x1_0000_0000 && t.m.dev.store.objects == s.objects[s.next := Object(parent, name, true, [])]
      else t.m.dev.store.objects == s.objects
  {
  }

  /** A listing callback that works shows the children the device holds now. */
  lemma ReadFolderReads(w: World, path: string)
    requires BaseOk(w)
    ensures var o := ReadFolder(w, path);
      && Quiet(w, o.w) && o.w.m.dev.store == w.m.dev.store
      && (o.rc == 0 ==>
            var h := Walk(w.m.dev.store, ROOT, Split(path));
            h.Some? && h.value in o.w.tree.listed
            && (IsFolder(w.m.dev.store, h.value) ==> ListingHolds(o.w.tree, w.m.dev.store, h.value)))
  {
    hide Resolve, Quiet, BaseOk, Device.List, Listed, Walk, IndexOk, Generous, ListingHolds;
    ResolveKeeps(w, path);
    var f := Resolve(w, path);
    QuietIsOk(w, f.w);
    if f.h.Some? {
      var h := f.h.value;
      OkIndex(f.w);
      ListStep(f.w, h);
      var w1 := Listed(f.w, Device.List(f.w.m.dev, h), h);
      ListedIsQuiet(f.w, w1);
      QuietInTurn(w, f.w, w1);
      QuietIsOk(f.w, w1);
      ListedHolds(f.w, h);
      ListedHolds(w1, h);
    }
  }

  lemma ListedHolds(w: World, h: Handle)
    ensures BaseOk(w) && h in w.tree.listed && IsFolder(w.m.dev.store, h) ==> ListingHolds(w.tree, w.m.dev.store, h)
  {
  }

  lemma OkIndex(w: World)
    requires BaseOk(w)
    ensures IndexOk(w)
  {
  }

  // ----- truncate of a file that no program holds open -----

  /** The object a path names gets a spool, a size, and is sent; an entry that stays in the map
      is a right one, and comes with an error. */
  ghost predicate Truncates(w: World, o: Outcome, path: string, size: nat) {
    && Works(w, o.w, path)
    && (path in o.w.pending ==>
          && o.rc == -EIO
          && OpenedAnew(w, o.w, path, if size > 0 then ObjectBytes(w.m.dev.store, path) else []))
  }

  lemma QuietTruncates(w: World, o: Outcome, path: string, size: nat)
    requires Quiet(w, o.w) && path !in w.pending
    ensures Truncates(w, o, path, size)
  {
    QuietWorks(w, o.w, path);
    hide Works, BaseOk, Onward, HostKeeps;
  }

  lemma TruncateClosedTruncates(w: World, path: string, size: nat)
    requires Good(w) && path !in w.pending
    ensures Truncates(w, TruncateClosed(w, path, size), path, size)
  {
    hide Resolve, Works, Quiet, BaseOk, Walk, AdoptForWrite, TruncateOpen, SendPending, Truncates;
    ResolveKeeps(w, path);
    var found := Resolve(w, path);
    if found.h.None? {
      QuietTruncates(w, TruncateClosed(w, path, size), path, size);
    } else if found.h.value == ROOT {
      RootEntry(w, found.w);
      QuietTruncates(w, TruncateClosed(w, path, size), path, size);
    } else {
      ResolvedEntry(w, path);
      TruncateFound(w, found.w, path, found.h.value, size);
    }
  }

  lemma TruncateFound(w: World, f: World, path: string, h: Handle, size: nat)
    requires Good(w) && Quiet(w, f) && Resolve(w, path) == Resolved(f, Some(h)) && f.m.dev.store == w.m.dev.store
    requires path !in w.pending && Walk(w.m.dev.store, ROOT, Split(path)) == Some(h)
    requires h in w.m.dev.store.objects && EntryAt(f.tree, h) == Some(EntryOf(w.m.dev.store, h))
    ensures Truncates(w, TruncateClosed(w, path, size), path, size)
  {
    var entry := EntryOf(w.m.dev.store, h);
    var keep := size > 0;
    hide Resolve, Works, BaseOk, Walk, AdoptForWrite, TruncateOpen, SendPending, Truncates, EntryOk,
         Onward, HostKeeps;
    if entry.isDir {
      QuietTruncates(w, TruncateClosed(w, path, size), path, size);
    } else {
      var o := AdoptForWrite(f, path, h, entry, keep);
      AdoptAdopts(f, path, h, entry, keep);
      LaterAdopted(w, f, o, path, h, entry, CopiedBytes(w, h, keep));
      AdoptedIsAnew(w, o, path, h, entry, keep);
      AdoptedWorks(w, o, path, h, entry, CopiedBytes(w, h, keep));
      TruncateAdopted(w, o, path, size);
    }
  }

  /** The rest of a truncate, once the object has a spool or has none. */
  function TruncateRest(adopted: Outcome, path: string, size: nat): Outcome {
    if adopted.rc != 0 || path !in adopted.w.pending then Outcome(adopted.w, adopted.rc)
    else
      var cut := TruncateOpen(adopted.w, path, size);
      if cut.rc != 0 || path !in cut.w.pending then cut
      else
        var p := cut.w.pending[path];
        var s := SendPending(cut.w.(pending := cut.w.pending - {path}), p);
        Outcome(s.w.(host := Dropped(s.w.host, s.p)), s.rc)
  }

  lemma TruncateAdopted(w: World, o: Outcome, path: string, size: nat)
    requires Good(w) && path !in w.pending && Works(w, o.w, path) && (o.rc == 0 <==> path in o.w.pending)
    requires path in o.w.pending ==>
      OpenedAnew(w, o.w, path, if size > 0 then ObjectBytes(w.m.dev.store, path) else [])
    ensures Truncates(w, TruncateRest(o, path, size), path, size)
  {
    hide TruncateOpen, Works, BaseOk, EntryOk, OpenedAnew, SpoolsApart, SendPending, Truncates, Holds;
    var bytes := if size > 0 then ObjectBytes(w.m.dev.store, path) else [];
    if o.rc == 0 {
      GoodAnew(w, o.w, path, bytes);
      TruncateOpenCuts(o.w, path, size, bytes);
      var cut := TruncateOpen(o.w, path, size);
      WorksInTurn(w, o.w, cut.w, path);
      if cut.rc != 0 {
        TruncateLeft(w, o.w, path, size, bytes);
      } else {
        PathIsGood(o.w, cut.w, path);
        AnewIsUnsent(w, o.w, path, bytes);
        TruncateSends(w, cut.w, path, size);
      }
    } else {
      NotTruncated(w, o, path, size);
    }
  }

  lemma NotTruncated(w: World, o: Outcome, path: string, size: nat)
    requires Works(w, o.w, path) && path !in o.w.pending
    ensures Truncates(w, o, path, size)
  {
    hide Works;
  }

  lemma AnewIsUnsent(w: World, w': World, path: string, bytes: seq<Byte>)
    requires OpenedAnew(w, w', path, bytes)
    ensures w'.pending[path].sent.None?
  {
  }

  lemma TruncateLeft(w: World, o: World, path: string, size: nat, bytes: seq<Byte>)
    requires OpenedAnew(w, o, path, bytes) && bytes == (if size > 0 then ObjectBytes(w.m.dev.store, path) else [])
    requires TruncateOpen(o, path, size).rc != 0 && Works(w, TruncateOpen(o, path, size).w, path)
    ensures Truncates(w, TruncateOpen(o, path, size), path, size)
  {
    hide Works, Walk, Generous, ObjectBytes;
  }

  lemma TruncateSends(w: World, cut: World, path: string, size: nat)
    requires Works(w, cut, path) && Good(cut) && path in cut.pending && cut.pending[path].sent.None?
    ensures var s := SendPending(cut.(pending := cut.pending - {path}), cut.pending[path]);
      Truncates(w, Outcome(s.w.(host := Dropped(s.w.host, s.p)), s.rc), path, size)
  {
    ReleaseReleases(cut, path, None);
    var w' := Release(cut, path, None).w;
    assert w' == SendPending(cut.(pending := cut.pending - {path}), cut.pending[path]).w.(host :=
      Dropped(SendPending(cut.(pending := cut.pending - {path}), cut.pending[path]).w.host,
              SendPending(cut.(pending := cut.pending - {path}), cut.pending[path]).p));
    hide Works, Good, SendPending;
    WorksInTurn(w, cut, w', path);
  }

  lemma GoodAnew(w: World, w': World, path: string, bytes: seq<Byte>)
    requires Good(w) && Works(w, w', path) && OpenedAnew(w, w', path, bytes)
    ensures Good(w') && EntryOk(w', w'.pending[path])
  {
    hide Works, BaseOk, Walk, EntryOk, SpoolsApart, Generous, Holds;
    PathIsGood(w, w', path);
  }

  /** The adoption a truncate of a closed file starts with, when the path names a file. */
  function Adoption(w: World, path: string, size: nat): Option<Outcome> {
    var found := Resolve(w, path);
    if found.h.None? then None
    else
      var entry := EntryAt(found.w.tree, found.h.value);
      if entry.None? || entry.value.isDir then None
      else Some(AdoptForWrite(found.w, path, found.h.value, entry.value, size > 0))
  }

  lemma SendKeepsPending(w: World, p: Pending)
    ensures SendPending(w, p).w.pending == w.pending
  {
    hide SendObjectStream, DeleteObject, RenameObject, AsideName, Device.Storage, OldSize, FreeSpace;
  }

  lemma RestLeavesEntryIff(o: Outcome, path: string, size: nat)
    requires o.rc == 0 <==> path in o.w.pending
    ensures path in TruncateRest(o, path, size).w.pending
      <==> o.rc == 0 && path in o.w.pending && !Host.SetLen(o.w.host, o.w.pending[path].spool, size).ok
  {
    hide SendPending, Dropped;
    if o.rc == 0 {
      var cut := TruncateOpen(o.w, path, size).w;
      SendKeepsPending(Without(cut, path), cut.pending[path]);
    }
  }

  lemma ClosedIsAdoption(w: World, path: string, size: nat)
    ensures var a := Adoption(w, path, size); var o := TruncateClosed(w, path, size);
      if a.Some? then o == TruncateRest(a.value, path, size) else o.w == Resolve(w, path).w
  {
    hide Resolve, AdoptForWrite, TruncateOpen, SendPending, Dropped;
  }

  lemma AdoptionAdopts(w: World, path: string, size: nat)
    requires BaseOk(w) && path !in w.pending
    ensures var a := Adoption(w, path, size); a.Some? ==> (a.value.rc == 0 <==> path in a.value.w.pending)
    ensures path !in Resolve(w, path).w.pending
  {
    ResolveKeeps(w, path);
    var f := Resolve(w, path);
    hide Resolve, Works, BaseOk, Walk, AdoptForWrite, Onward, HostKeeps, Generous, Adopted;
    if f.h.Some? && f.h.value != ROOT {
      ResolvedEntry(w, path);
      var h := f.h.value;
      var entry := EntryOf(w.m.dev.store, h);
      AdoptAdopts(f.w, path, h, entry, size > 0);
      AdoptedWorks(f.w, AdoptForWrite(f.w, path, h, entry, size > 0), path, h, entry, CopiedBytes(f.w, h, size > 0));
    } else {
      RootEntry(w, f.w);
    }
  }

  /** A truncate of a closed file leaves an entry behind exactly when its adoption worked and
      the spool did not take the size. */
  lemma AdoptedLeavesEntryIff(w: World, path: string, size: nat)
    requires Good(w) && path !in w.pending
    ensures var a := Adoption(w, path, size);
      path in TruncateClosed(w, path, size).w.pending
      <==> a.Some? && a.value.rc == 0 && path in a.value.w.pending
           && !Host.SetLen(a.value.w.host, a.value.w.pending[path].spool, size).ok
  {
    ClosedIsAdoption(w, path, size);
    AdoptionAdopts(w, path, size);
    var a := Adoption(w, path, size);
    if a.Some? {
      RestLeavesEntryIff(a.value, path, size);
    }
    hide Adoption, TruncateClosed, TruncateRest, Resolve, Host.SetLen, Good;
  }
}
