/** What programs can count on over whole runs of the mount. `crates/mtpfs/src/main.rs`. */
module RunLaws {
  import opened Bytes
  import opened Wrappers
  import opened PathTree
  import opened Device
  import opened ReadAhead
  import opened World
  import opened Index
  import opened Upkeep
  import opened Callbacks
  import opened RenameIndex
  import opened Walks
  import opened Runs
  import SwapSafety
  import Host

  // ----- the start of a mount -----

  /** A mount that has read nothing and holds nothing open. */
  ghost predicate IsStart(d: Desk) {
    && d.open == map[] && d.w.pending == map[] && d.w.m.cache.None?
    && d.w.tree == TreeState(map[], map[], {})
    && WfStore(d.w.m.dev.store) && Readable(d.w.m)
  }

  lemma StartIsKept(d: Desk)
    requires IsStart(d)
    ensures Kept(d) && (Generous(d.w.m.dev) ==> Mirrors(d))
  {
  }

  /** A mount as some legal run from a start leaves it. */
  ghost predicate Reached(start: Desk, d: Desk) {
    IsStart(start) && exists calls :: LegalRun(start, calls) && Run(start, calls) == d
  }

  lemma ReachedIsKept(start: Desk, d: Desk)
    requires Reached(start, d)
    ensures Runs.Kept(d) && (Generous(start.w.m.dev) ==> Mirrors(d))
  {
    hide Runs.Kept, Mirrors, IsStart;
    var calls :| LegalRun(start, calls) && Run(start, calls) == d;
    StartIsKept(start);
    RunKeeps(start, calls);
  }

  // ----- the index -----

  /** After any run, `resolve` gives the object a direct walk of the device gives, for every
      path of at most 63 parts, when the device answers the listings. */
  lemma ResolveAfterRun(start: Desk, d: Desk, path: string)
    requires Reached(start, d) && |Split(path)| < MAX_WALK && Answers(d.w.m.dev, MAX_WALK)
    ensures Resolve(d.w, path).h == Walk(d.w.m.dev.store, ROOT, Split(path))
  {
    ReachedIsKept(start, d);
    KeptIsOk(d);
    OkIndex(d.w);
    ResolveIsWalkIff(d.w, path);
    hide Resolve, Walk, Reached, Answers;
  }

  // ----- writers and readers -----

  /** An open writer has its entry, so its write meets no `EROFS` of the mount: an error is the
      host's own, and the entry keeps it. */
  lemma WriterWrites(start: Desk, d: Desk, id: nat, bytes: seq<Byte>, offset: nat)
    requires Reached(start, d) && id in d.open && IsWriter(d.open[id]) && |bytes| < 0x8000_0000
    ensures var path := d.open[id].path; var o := Write(d.w, path, bytes, offset);
      && path in d.w.pending && path in o.w.pending
      && (o.rc < 0 ==> exists e: Host.Errno :: o.w.pending[path].broken == Some(e) && o.rc == -(e as int))
      && (o.rc >= 0 ==> o.rc == |bytes|)
  {
    ReachedIsKept(start, d);
    WriterIsHeld(d, id);
    WriteAnswers(d.w, d.open[id].path, bytes, offset);
    hide Reached, Runs.Kept, Mirrors, Write, IsWriter;
  }

  lemma WriteAnswers(w: World, path: string, bytes: seq<Byte>, offset: nat)
    requires path in w.pending && |bytes| < 0x8000_0000
    ensures var o := Write(w, path, bytes, offset);
      && path in o.w.pending
      && (o.rc < 0 ==> exists e: Host.Errno :: o.w.pending[path].broken == Some(e) && o.rc == -(e as int))
      && (o.rc >= 0 ==> o.rc == |bytes|)
  {
    hide Host.WriteLoop;
    assert AsI32(|bytes|) == |bytes|;
    var o := Write(w, path, bytes, offset);
    if o.rc < 0 {
      var e := o.w.pending[path].broken.value;
      assert o.rc == -(e as int);
    }
  }

  /** No close of a handle that reads sends a file, drops a spool or changes anything, whatever
      is open for writing. */
  lemma ReaderClosesNothing(d: Desk, id: nat)
    requires id in d.open && !IsWriter(d.open[id])
    ensures var s := d.open[id];
      Flush(d.w, s.path, Some(s.fh)) == Outcome(d.w, 0) && Release(d.w, s.path, Some(s.fh)) == Outcome(d.w, 0)
  {
  }

  /** A read of a path open for writing gives the bytes the writes stand for; all of the range
      when the host's disk gives all that is asked. */
  lemma ReadSeesWrites(start: Desk, d: Desk, path: string, want: nat, offset: nat, fi: Option<nat>)
    requires Reached(start, d) && Generous(start.w.m.dev) && want < 0x1_0000_0000 && path in d.w.pending
    ensures var r := Read(d.w, path, want, offset, fi).r;
      d.w.pending[path].broken.None? && r.Success? ==>
        IsRange(r.value, Shadow(d, path), offset, want, Host.Now(d.w.host).moved >= want)
  {
    ReachedIsKept(start, d);
    hide Reached, Read, Good, IsRange;
    assert Holds(d.w, path, d.shadow[path]);
    ReadReads(d.w, path, want, offset, fi);
  }

  // ----- what a send delivers -----

  /** The file is there whole under its name; the object it replaces is gone, or stands aside,
      with the number `n`, only because its removal failed; every other object is as it was. */
  ghost predicate Delivered(before: Dev, after: Dev, p: Pending, bytes: seq<Byte>, n: nat) {
    var slot := before.store.next; var goal := Object(p.parent, p.name, false, bytes);
    && 0 < slot < 0x1_0000_0000
    && match p.replaced
       case None => after.store.objects == before.store.objects[slot := goal]
       case Some(prev) =>
         && prev in before.store.objects
         && (|| after.store.objects == (before.store.objects - {prev})[slot := goal]
             || (SwapSafety.EndsInVain(before, after, CallDelete(prev))
                 && after.store.objects == before.store.objects[prev :=
                      before.store.objects[prev].(name := AsideName(p.name, n))][slot := goal]))
  }

  lemma GoneIsNotReplaced(w: World, p: Pending)
    requires p.replaced.Some? && p.replaced.value !in w.m.dev.store.objects
    ensures SendPending(w, p).rc != 0
  {
    hide SendContents;
  }

  lemma SendDelivers(w: World, p: Pending, bytes: seq<Byte>)
    requires WfStore(w.m.dev.store) && SendPending(w, p).rc == 0
    requires Host.Contents(w.host, p.spool) == bytes && p.size == |bytes|
    ensures Delivered(w.m.dev, SendPending(w, p).w.m.dev, p, bytes, w.host.count)
  {
    assert bytes[..|bytes|] == bytes;
    if p.replaced.None? {
      SwapSafety.NewFileOutcome(w, p);
      hide SendPending;
    } else {
      var prev := p.replaced.value;
      if prev !in w.m.dev.store.objects {
        GoneIsNotReplaced(w, p);
        assert false;
      }
      SwapSafety.SwapOutcome(w, p);
      hide SendPending, AsideName, SwapSafety.EndsInVain;
      assert SwapSafety.SwapOf(w, p).goal == Object(p.parent, p.name, false, bytes);
    }
  }

  /** A flush that answers 0 puts exactly the bytes the writes stand for on the device. */
  lemma FlushDelivers(start: Desk, d: Desk, id: nat)
    requires Reached(start, d) && Generous(start.w.m.dev) && id in d.open && IsWriter(d.open[id])
    ensures var path := d.open[id].path; var o := Flush(d.w, path, Some(d.open[id].fh));
      && path in d.w.pending
      && (d.w.pending[path].sent.None? && o.rc == 0 ==>
            Delivered(d.w.m.dev, o.w.m.dev, d.w.pending[path], Shadow(d, path), d.w.host.count))
  {
    var path := d.open[id].path;
    ReachedIsKept(start, d);
    WriterIsHeld(d, id);
    hide Reached, Flush, Runs.Kept, Mirrors, Delivered;
    if d.w.pending[path].sent.None? && Flush(d.w, path, Some(d.open[id].fh)).rc == 0 {
      FlushNowDelivers(d, path, d.open[id].fh);
    }
  }

  lemma FlushNowDelivers(d: Desk, path: string, fh: nat)
    requires Kept(d) && Mirrors(d) && path in d.w.pending && d.w.pending[path].sent.None? && FhMarked(fh)
    requires Flush(d.w, path, Some(fh)).rc == 0
    ensures Delivered(d.w.m.dev, Flush(d.w, path, Some(fh)).w.m.dev, d.w.pending[path], Shadow(d, path), d.w.host.count)
  {
    var p := d.w.pending[path];
    assert EntryOk(d.w, p) && Holds(d.w, path, d.shadow[path]);
    OkStore(d.w);
    var w := Without(d.w, path);
    if p.broken.Some? {
      SwapSafety.BrokenIsNeverSent(w, p);
    } else {
      hide SendPending, BaseOk, Delivered, FhMarked;
      SendDelivers(w, p, d.shadow[path]);
    }
  }

  // ----- one send for each entry -----

  /** A flush or a release by a writer of the path. */
  predicate ClosesPath(d: Desk, c: FsCall, path: string) {
    (c.FlushFile? || c.ReleaseFile?) && c.id in d.open && d.open[c.id].path == path && IsWriter(d.open[c.id])
  }

  /** The entry of the path goes: its writer releases it, or a new file takes its place. */
  predicate EndsEntry(d: Desk, c: FsCall, path: string) {
    (c.ReleaseFile? && ClosesPath(d, c, path)) || (c.CreateFile? && c.path == path)
  }

  /** The call runs a send for the entry of the path. */
  predicate SendsEntry(d: Desk, c: FsCall, path: string) {
    ClosesPath(d, c, path) && path in d.w.pending && d.w.pending[path].sent.None?
  }

  /** How often the entry of the path is sent, up to the call that ends it. */
  function SendCount(d: Desk, calls: seq<FsCall>, path: string): nat
    requires LegalRun(d, calls)
    decreases |calls|
  {
    if calls == [] then 0
    else
      (if SendsEntry(d, calls[0], path) then 1 else 0)
      + (if EndsEntry(d, calls[0], path) then 0 else SendCount(Step(d, calls[0]), calls[1..], path))
  }

  /** The entry of the path is flushed or released, by the call that ends it or before. */
  predicate Reaches(d: Desk, calls: seq<FsCall>, path: string)
    requires LegalRun(d, calls)
    decreases |calls|
  {
    calls != []
    && (ClosesPath(d, calls[0], path)
        || (!EndsEntry(d, calls[0], path) && Reaches(Step(d, calls[0]), calls[1..], path)))
  }

  /** A close that sends nothing touches neither the device nor a spool of another path. */
  lemma NoSendNoChange(d: Desk, c: FsCall, path: string)
    requires Runs.Kept(d) && Legal(d, c) && ClosesPath(d, c, path) && !SendsEntry(d, c, path)
    ensures Step(d, c).w.m == d.w.m && Step(d, c).w.tree == d.w.tree
  {
  }

  /** What a call that does not end it makes of an entry: it is sent, or it keeps its answer. */
  ghost predicate Lasting(d: Desk, c: FsCall, path: string)
    requires Legal(d, c) && path in d.w.pending
  {
    var w' := Step(d, c).w;
    && path in w'.pending && w'.pending[path].spool == d.w.pending[path].spool
    && (if SendsEntry(d, c, path) then w'.pending[path].sent.Some?
        else w'.pending[path].sent == d.w.pending[path].sent)
  }

  /** A call that opens a file, or that reads or writes an open one. */
  predicate OnFile(c: FsCall) {
    c.OpenFile? || c.CreateFile? || c.WriteFile? || c.ReadFile?
  }

  predicate IsClose(c: FsCall) {
    c.FlushFile? || c.ReleaseFile?
  }

  lemma FileCallLasts(d: Desk, c: FsCall, path: string)
    requires Runs.Kept(d) && Legal(d, c) && path in d.w.pending && !EndsEntry(d, c, path) && OnFile(c)
    ensures Lasting(d, c, path)
  {
    hide Good, BaseOk, Walk, ObjectBytes, Onward, HostKeeps, Generous, FhMarked, FlagWrites,
         FlagTruncates, EntryOk, IsRange;
    KeptIsOk(d);
    match c {
      case OpenFile(id, p, flags) =>
        OpenOpens(d.w, p, Some(flags));
      case CreateFile(id, p) =>
        CreateCreates(d.w, p, Some(0));
      case WriteFile(id, bytes, offset) =>
        WriterIsHeld(d, id);
        WriteWrites(d.w, d.open[id].path, bytes, offset, []);
      case ReadFile(id, want, offset) =>
        ReadReads(d.w, d.open[id].path, want, offset, Some(d.open[id].fh));
    }
  }

  lemma CloseLasts(d: Desk, c: FsCall, path: string)
    requires Runs.Kept(d) && Legal(d, c) && path in d.w.pending && !EndsEntry(d, c, path) && IsClose(c)
    ensures Lasting(d, c, path)
  {
    hide Good, BaseOk, Onward, HostKeeps, Generous, FhMarked, EntryOk;
    var s := d.open[c.id];
    if c.FlushFile? {
      FlushFlushes(d.w, s.path, Some(s.fh));
    } else {
      ReleaseReleases(d.w, s.path, Some(s.fh));
    }
    hide Flush, Release;
  }

  lemma PathCallLasts(d: Desk, c: FsCall, path: string)
    requires Runs.Kept(d) && Legal(d, c) && path in d.w.pending && !OnFile(c) && !IsClose(c)
    ensures Lasting(d, c, path)
  {
    hide Good, BaseOk, Walk, ObjectBytes, Onward, HostKeeps, Generous, EntryOk, Tame, RenameStrands, IsRange;
    KeptIsOk(d);
    match c {
      case TruncatePath(p, size) =>
        if p in d.w.pending {
          TruncateOpenCuts(d.w, p, size, []);
        } else {
          TruncateClosedTruncates(d.w, p, size);
        }
      case RenamePath(from, to) =>
        RenameKeepsEntries(d.w, from, to);
      case RemoveAt(p, wantDir) =>
        RemovePathRemoves(d.w, p, wantDir);
      case MakeFolderAt(p) =>
        MkdirMakes(d.w, p);
      case ListFolder(p) =>
        ReadFolderReads(d.w, p);
    }
  }

  lemma EntryLasts(d: Desk, c: FsCall, path: string)
    requires Runs.Kept(d) && Legal(d, c) && path in d.w.pending && !EndsEntry(d, c, path)
    ensures Lasting(d, c, path)
  {
    hide Runs.Kept, Legal, Lasting, EndsEntry;
    if OnFile(c) {
      FileCallLasts(d, c, path);
    } else if IsClose(c) {
      CloseLasts(d, c, path);
    } else {
      PathCallLasts(d, c, path);
    }
  }

  /** Of the flushes and releases of an entry, exactly one finds it unsent when one reaches it
      unsent at all. The log says the rest: see SendLog. */
  lemma {:induction false} SentExactlyOnce(d: Desk, calls: seq<FsCall>, path: string)
    requires Runs.Kept(d) && LegalRun(d, calls) && path in d.w.pending
    ensures SendCount(d, calls, path) == if d.w.pending[path].sent.None? && Reaches(d, calls, path) then 1 else 0
    decreases |calls|
  {
    hide Runs.Kept, Legal, Step, ClosesPath, Mirrors;
    if calls != [] && !EndsEntry(d, calls[0], path) {
      EntryLasts(d, calls[0], path);
      StepKeeps(d, calls[0]);
      SentExactlyOnce(Step(d, calls[0]), calls[1..], path);
    }
  }

  /** No call of the run ends the entry of the path. */
  predicate LastsThrough(d: Desk, calls: seq<FsCall>, path: string)
    requires LegalRun(d, calls)
    decreases |calls|
  {
    calls == [] || (!EndsEntry(d, calls[0], path) && LastsThrough(Step(d, calls[0]), calls[1..], path))
  }

  /** Once an entry is sent, each later flush gives the same answer and sends nothing, whatever
      happens in between. */
  lemma {:induction false} AnswerStays(d: Desk, calls: seq<FsCall>, path: string, fh: nat)
    requires Runs.Kept(d) && LegalRun(d, calls) && LastsThrough(d, calls, path)
    requires path in d.w.pending && d.w.pending[path].sent.Some? && FhMarked(fh)
    ensures var w := Run(d, calls).w;
      && path in w.pending && Flush(w, path, Some(fh)) == Outcome(w, d.w.pending[path].sent.value)
    decreases |calls|
  {
    hide Runs.Kept, Legal, Step, EndsEntry, Mirrors, FhMarked;
    if calls != [] {
      EntryLasts(d, calls[0], path);
      StepKeeps(d, calls[0]);
      AnswerStays(Step(d, calls[0]), calls[1..], path, fh);
    } else {
      var out := d.w.pending - {path};
      assert out[path := d.w.pending[path]] == d.w.pending;
    }
  }

  // ----- a write after the send -----

  /** A write after the first flush reaches the spool and not the device: once the file is
      closed, the device holds what the flush sent, and that is the final contents exactly
      when the late write changed nothing. */
  lemma LateWriteIsLostIff(d: Desk, path: string, fh: nat, bytes: seq<Byte>, offset: nat)
    requires Runs.Kept(d) && Mirrors(d) && path in d.w.pending && FhMarked(fh) && bytes != []
    requires d.w.pending[path].sent.None? && Flush(d.w, path, Some(fh)).rc == 0
    ensures var sent := d.(w := Flush(d.w, path, Some(fh)).w);
      var late := StepWrite(sent, path, bytes, offset);
      var store := Release(late.w, path, Some(fh)).w.m.dev.store;
      var slot := d.w.m.dev.store.next;
      && 0 < slot < 0x1_0000_0000 && slot in store.objects
      && (store.objects[slot].data == Shadow(late, path)
          <==> Host.Splice(Shadow(d, path), offset, bytes) == Shadow(d, path))
  {
    FlushNowDelivers(d, path, fh);
    FlushFlushes(d.w, path, Some(fh));
    var sent := d.(w := Flush(d.w, path, Some(fh)).w);
    DeliveredIsThere(d.w.m.dev, sent.w.m.dev, d.w.pending[path], Shadow(d, path), d.w.host.count);
    LateCloseSendsNothing(sent, path, fh, bytes, offset);
    hide Flush, Release, Good, Mirrors, Works, Host.Splice, WritersHeld, FhMarked, EntryOk, Delivered;
  }

  lemma DeliveredIsThere(before: Dev, after: Dev, p: Pending, bytes: seq<Byte>, n: nat)
    requires Delivered(before, after, p, bytes, n)
    ensures 0 < before.store.next < 0x1_0000_0000
    ensures before.store.next in after.store.objects && after.store.objects[before.store.next].data == bytes
  {
  }

  lemma LateCloseSendsNothing(d: Desk, path: string, fh: nat, bytes: seq<Byte>, offset: nat)
    requires path in d.w.pending && d.w.pending[path].sent.Some?
    ensures var late := StepWrite(d, path, bytes, offset);
      && Release(late.w, path, Some(fh)).w.m == d.w.m
      && Shadow(late, path) == Host.Splice(Shadow(d, path), offset, bytes)
  {
    hide Host.Splice, FhMarked;
    WriteKeepsAnswer(d.w, path, bytes, offset);
    hide Write;
  }

  lemma WriteKeepsAnswer(w: World, path: string, bytes: seq<Byte>, offset: nat)
    requires path in w.pending
    ensures var o := Write(w, path, bytes, offset);
      o.w.m == w.m && path in o.w.pending && o.w.pending[path].sent == w.pending[path].sent
  {
    hide Host.WriteLoop;
  }

  /** A new file that is flushed before its first byte: every call answers as if all were
      well, and the device keeps an empty file. */
  lemma LateByteIsLost(w: World, fh: nat)
    requires w.pending == map["/a" := NewPending(ROOT, "a", 0, 0, None)] && FhMarked(fh)
    requires w.m.dev.store == Store(map[], [], 1)
    requires |w.m.dev.script| == 2 && w.m.dev.script[0].verdict.Done? && w.m.dev.script[1].verdict.Done?
    requires w.host.files == map[0 := []] && |w.host.script| == 2
    requires w.host.script[0].ok && w.host.script[1].ok && w.host.script[1].moved == 1
    ensures var sent := Flush(w, "/a", Some(fh));
      var late := Write(sent.w, "/a", [7], 0);
      var closed := Release(late.w, "/a", Some(fh));
      && sent.rc == 0 && late.rc == 1 && closed.rc == 0
      && 1 in closed.w.m.dev.store.objects
      && closed.w.m.dev.store.objects[1] == Object(ROOT, "a", false, [])
  {
    hide FhMarked;
    var p := NewPending(ROOT, "a", 0, 0, None);
    var out := Without(w, "/a");
    var s := SendPending(out, p);
    assert s.rc == 0 && s.w.m.dev.store.objects == map[1 := Object(ROOT, "a", false, [])];
    var sent := Flush(w, "/a", Some(fh)).w;
    assert sent.pending["/a"].sent == Some(0);
    assert Host.Now(sent.host).ok && Host.Now(sent.host).moved == 1;
    assert Host.WriteLoop(sent.host, 0, 0, [7]).end.Whole?;
    hide SendPending;
  }

  // ----- truncate of a closed file -----

  /** The object a path names comes out with its bytes cut or filled to the size. */
  ghost predicate Cuts(w: World, after: Dev, path: string, size: nat) {
    exists mid: Dev, p: Pending :: CutEntry(w, mid, p, path)
      && Delivered(mid, after, p, Host.Resize(ObjectBytes(w.m.dev.store, path), size), w.host.count + 1)
  }

  ghost predicate CutEntry(w: World, mid: Dev, p: Pending, path: string) {
    mid.store == w.m.dev.store && ForObject(p, w.m.dev.store, path)
  }

  lemma TruncateRestCuts(w: World, o: Outcome, path: string, size: nat)
    requires Good(w) && Works(w, o.w, path) && Generous(w.m.dev)
    requires o.rc == 0 ==> OpenedAnew(w, o.w, path, if size > 0 then ObjectBytes(w.m.dev.store, path) else [])
    requires TruncateRest(o, path, size).rc == 0 && (o.rc == 0 ==> o.w.host.count == w.host.count + 1)
    ensures o.rc == 0 ==> Cuts(w, TruncateRest(o, path, size).w.m.dev, path, size)
  {
    if o.rc == 0 {
      var bytes := if size > 0 then ObjectBytes(w.m.dev.store, path) else [];
      var cut := TruncateOpen(o.w, path, size);
      GoodAnew(w, o.w, path, bytes);
      TruncateOpenCuts(o.w, path, size, bytes);
      OkStore(o.w);
      var p := cut.w.pending[path];
      RestIsSend(o, path, size);
      hide TruncateRest, ObjectBytes, Walk, SendPending, BaseOk, Works, SpoolsApart, Generous, Delivered,
           Host.Resize;
      NothingToKeep(ObjectBytes(w.m.dev.store, path), size);
      SendDelivers(Without(cut.w, path), p, Host.Resize(bytes, size));
      assert CutEntry(w, cut.w.m.dev, p, path);
    }
  }

  /** A change of size that works keeps the session and the numbers, and then the entry is sent. */
  lemma RestIsSend(o: Outcome, path: string, size: nat)
    requires o.rc == 0 && path in o.w.pending && TruncateRest(o, path, size).rc == 0
    ensures var cut := TruncateOpen(o.w, path, size); var s := SendPending(Without(cut.w, path), cut.w.pending[path]);
      && cut.w.m == o.w.m && cut.w.host.count == o.w.host.count && cut.rc == 0
      && s.rc == 0 && TruncateRest(o, path, size).w.m == s.w.m
      && cut.w.pending[path] == o.w.pending[path].(size := size)
  {
    hide SendPending;
  }

  lemma NothingToKeep(bytes: seq<Byte>, size: nat)
    ensures Host.Resize(if size > 0 then bytes else [], size) == Host.Resize(bytes, size)
  {
  }

  /** `truncate` of a file no program holds open: an answer of 0 means the device holds the
      file at its new size, under the same name in the same folder. */
  lemma TruncateDelivers(w: World, path: string, size: nat)
    requires Good(w) && Generous(w.m.dev) && path !in w.pending
    requires TruncateClosed(w, path, size).rc == 0
    ensures Cuts(w, TruncateClosed(w, path, size).w.m.dev, path, size)
  {
    ResolveKeeps(w, path);
    var f := Resolve(w, path);
    hide Resolve, Works, BaseOk, Walk, AdoptForWrite, TruncateOpen, SendPending, EntryOk, Onward,
         HostKeeps, Generous, Cuts, SpoolsApart;
    if f.h.Some? && f.h.value != ROOT {
      var h := f.h.value;
      ResolvedEntry(w, path);
      var entry := EntryOf(w.m.dev.store, h);
      var keep := size > 0;
      var o := AdoptForWrite(f.w, path, h, entry, keep);
      AdoptAdopts(f.w, path, h, entry, keep);
      AdoptCounts(f.w, path, h, entry, keep);
      LaterAdopted(w, f.w, o, path, h, entry, CopiedBytes(w, h, keep));
      AdoptedIsAnew(w, o, path, h, entry, keep);
      AdoptedWorks(w, o, path, h, entry, CopiedBytes(w, h, keep));
      assert TruncateClosed(w, path, size) == TruncateRest(o, path, size);
      TruncateRestCuts(w, o, path, size);
      hide TruncateRest, Adopted, OpenedAnew;
      assert o.rc == 0;
    } else {
      RootEntry(w, f.w);
    }
  }

  // ----- a run from end to end -----

  lemma RootResolves(w: World)
    ensures Resolve(w, "/") == Resolved(w, Some(ROOT))
  {
    RootSplitsToNothing();
    hide Split;
  }

  lemma FirstPath()
    ensures SplitParent("/a") == ("/", "a")
  {
    assert "/a"[..1] == "/";
    assert "/a"[1..] == "a";
    assert LastSlash("/a") == LastSlash("/");
  }

  /** The first half of the run: a new file is made and one byte is written. */
  lemma MadeAndWritten(d: Desk)
    requires IsStart(d) && d.w.host == Host.HostState(map[], d.w.host.script, 0) && |d.w.host.script| == 3
    requires forall i :: 0 <= i < 3 ==> d.w.host.script[i].ok && d.w.host.script[i].moved > 0
    ensures var made := StepCreate(d, 0, "/a"); var written := StepWrite(made, "/a", [7], 0);
      && made.open == map[0 := Slot("/a", FH_WRITER)]
      && written.w.m == d.w.m && written.w.tree == d.w.tree
      && written.w.pending == map["/a" := NewPending(ROOT, "a", 0, 1, None)]
      && written.w.host == Host.HostState(map[0 := [7]], d.w.host.script[2..], 1)
  {
    RootResolves(d.w);
    FirstPath();
    hide Resolve, SplitParent, Host.Zeros;
    var made := StepCreate(d, 0, "/a");
    assert made.w.pending == map["/a" := NewPending(ROOT, "a", 0, 0, None)];
    assert made.w.host == Host.HostState(map[0 := []], d.w.host.script[1..], 1);
    assert [7][..1] == [7] && [7][1..] == [];
    assert Host.Splice([], 0, [7]) == [7];
    hide Create, Host.Splice;
  }

  /** The second half: the file is flushed and closed. */
  lemma FlushedAndClosed(w: World, fh: nat)
    requires w.pending == map["/a" := NewPending(ROOT, "a", 0, 1, None)] && FhMarked(fh)
    requires w.m.dev.store == Store(map[], [], 1)
    requires |w.m.dev.script| == 2 && w.m.dev.script[0].verdict.Done? && w.m.dev.script[1].verdict.Done?
    requires w.host.files == map[0 := [7]] && |w.host.script| == 1 && w.host.script[0].ok
    ensures var o := Flush(w, "/a", Some(fh)); var c := Release(o.w, "/a", Some(fh)).w;
      && o.rc == 0 && c.m.dev.store.objects == map[1 := Object(ROOT, "a", false, [7])]
      && c.pending == map[] && c.host.files == map[]
  {
    hide FhMarked;
    var p := NewPending(ROOT, "a", 0, 1, None);
    var s := SendPending(Without(w, "/a"), p);
    assert [7][..1] == [7];
    assert s.rc == 0 && s.w.m.dev.store.objects == map[1 := Object(ROOT, "a", false, [7])];
    assert s.w.host.files == map[0 := [7]] && !s.p.keepSpool && s.p.spool == 0;
    hide SendPending;
  }

  /** One file from end to end, on a phone and a disk that do as they are told: the run is
      legal, and leaves the one object, no entry and no spool file. */
  lemma OneFileEndToEnd(d: Desk)
    requires IsStart(d) && d.w.host == Host.HostState(map[], d.w.host.script, 0) && |d.w.host.script| == 3
    requires forall i :: 0 <= i < 3 ==> d.w.host.script[i].ok && d.w.host.script[i].moved > 0
    requires d.w.m.dev.store == Store(map[], [], 1) && |d.w.m.dev.script| == 2
    requires forall i :: 0 <= i < 2 ==> d.w.m.dev.script[i].verdict.Done?
    ensures var calls := [CreateFile(0, "/a"), WriteFile(0, [7], 0), FlushFile(0), ReleaseFile(0)];
      LegalRun(d, calls)
      && var e := Run(d, calls);
         && e.w.m.dev.store.objects == map[1 := Object(ROOT, "a", false, [7])]
         && e.open == map[] && e.w.pending == map[] && e.w.host.files == map[]
  {
    hide StepCreate, StepWrite, Flush, Release, FhMarked;
    var calls := [CreateFile(0, "/a"), WriteFile(0, [7], 0), FlushFile(0), ReleaseFile(0)];
    MadeAndWritten(d);
    MarkAndHandle(ROOT);
    var made := StepCreate(d, 0, "/a");
    var written := StepWrite(made, "/a", [7], 0);
    FlushedAndClosed(written.w, FH_WRITER);
    assert written.open == made.open by {
      WriteOpensNone(made);
    }
    assert calls[1..] == [WriteFile(0, [7], 0), FlushFile(0), ReleaseFile(0)];
    assert calls[1..][1..] == [FlushFile(0), ReleaseFile(0)];
    assert [FlushFile(0), ReleaseFile(0)][1..] == [ReleaseFile(0)];
    assert [ReleaseFile(0)][1..] == [];
    var flushed := written.(w := Flush(written.w, "/a", Some(FH_WRITER)).w);
    var closed := Desk(Release(flushed.w, "/a", Some(FH_WRITER)).w, map[], flushed.shadow);
    assert flushed.open - {0} == map[];
    assert LegalRun(closed, []) && Run(closed, []) == closed;
    assert LegalRun(flushed, [ReleaseFile(0)]) && Run(flushed, [ReleaseFile(0)]) == closed;
    assert LegalRun(written, [FlushFile(0), ReleaseFile(0)]) && Run(written, [FlushFile(0), ReleaseFile(0)]) == closed;
    assert LegalRun(made, calls[1..]) && Run(made, calls[1..]) == closed;
  }

  lemma WriteOpensNone(d: Desk)
    ensures StepWrite(d, "/a", [7], 0).open == d.open
  {
  }
}
