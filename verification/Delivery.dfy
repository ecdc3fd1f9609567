/** What a program's file becomes on the phone: late changes that never arrive, and the path
    under which a delivered file is found. `crates/mtpfs/src/main.rs`, lines 1121 to 1313. */
module Delivery {
  import opened Bytes
  import opened Wrappers
  import opened PathTree
  import opened Device
  import opened Backend
  import opened ReadAhead
  import opened World
  import opened Index
  import opened Upkeep
  import opened Callbacks
  import opened RenameCall
  import opened RenameIndex
  import opened Walks
  import opened Runs
  import opened RunLaws
  import RenameSafety
  import SwapSafety
  import Host

  // ----- bytes on the phone stay as they are -----

  lemma WorksEndures(w: World, w': World, path: string)
    requires Works(w, w', path)
    ensures Endures(w.m.dev.store, w'.m.dev.store)
  {
    hide BaseOk, OnlyPath, Generous, WfStore;
  }

  lemma QuietEndures(w: World, w': World)
    requires Quiet(w, w')
    ensures Endures(w.m.dev.store, w'.m.dev.store)
  {
    hide BaseOk, HostKeeps, Generous, WfStore;
  }

  lemma FileCallEndures(d: Desk, c: FsCall)
    requires Kept(d) && Legal(d, c) && (OnFile(c) || IsClose(c))
    ensures Endures(d.w.m.dev.store, Step(d, c).w.m.dev.store)
  {
    hide Good, Works, Quiet, Endures, EntryOk, Holds, OpenedAnew, ObjectBytes, FhMarked, IsRange, Walk,
         FlagWrites, FlagTruncates;
    KeptIsOk(d);
    match c {
      case OpenFile(id, p, flags) =>
        OpenOpens(d.w, p, Some(flags));
        WorksEndures(d.w, Step(d, c).w, p);
      case CreateFile(id, p) =>
        CreateCreates(d.w, p, Some(0));
        WorksEndures(d.w, Step(d, c).w, p);
      case WriteFile(id, bytes, offset) =>
        WriterIsHeld(d, id);
        WriteWrites(d.w, d.open[id].path, bytes, offset, []);
        WorksEndures(d.w, Step(d, c).w, d.open[id].path);
      case ReadFile(id, want, offset) =>
        ReadReads(d.w, d.open[id].path, want, offset, Some(d.open[id].fh));
        QuietEndures(d.w, Step(d, c).w);
      case FlushFile(id) =>
        FlushFlushes(d.w, d.open[id].path, Some(d.open[id].fh));
        WorksEndures(d.w, Step(d, c).w, d.open[id].path);
      case ReleaseFile(id) =>
        ReleaseReleases(d.w, d.open[id].path, Some(d.open[id].fh));
        WorksEndures(d.w, Step(d, c).w, d.open[id].path);
    }
  }

  lemma PathCallEndures(d: Desk, c: FsCall)
    requires Kept(d) && Legal(d, c) && !OnFile(c) && !IsClose(c)
    ensures Endures(d.w.m.dev.store, Step(d, c).w.m.dev.store)
  {
    hide Good, Works, Quiet, Endures, EntryOk, Holds, OpenedAnew, ObjectBytes, Tame, RenameStrands,
         Walk, ListingHolds;
    KeptIsOk(d);
    match c {
      case TruncatePath(p, size) =>
        if p in d.w.pending {
          TruncateOpenCuts(d.w, p, size, []);
        } else {
          TruncateClosedTruncates(d.w, p, size);
        }
        WorksEndures(d.w, Step(d, c).w, p);
      case RenamePath(from, to) =>
        RenameKeepsEntries(d.w, from, to);
      case RemoveAt(p, wantDir) =>
        RemovePathRemoves(d.w, p, wantDir);
        QuietEndures(d.w, Step(d, c).w);
      case MakeFolderAt(p) =>
        MkdirMakes(d.w, p);
        QuietEndures(d.w, Step(d, c).w);
      case ListFolder(p) =>
        ReadFolderReads(d.w, p);
        QuietEndures(d.w, Step(d, c).w);
    }
  }

  lemma StepEndures(d: Desk, c: FsCall)
    requires Kept(d) && Legal(d, c)
    ensures Endures(d.w.m.dev.store, Step(d, c).w.m.dev.store)
  {
    hide Kept, Legal, Step, Endures;
    if OnFile(c) || IsClose(c) {
      FileCallEndures(d, c);
    } else {
      PathCallEndures(d, c);
    }
  }

  /** Over any run, an object that stays on the phone keeps its bytes. */
  lemma {:induction false} RunEndures(d: Desk, calls: seq<FsCall>)
    requires Kept(d) && LegalRun(d, calls)
    ensures Endures(d.w.m.dev.store, Run(d, calls).w.m.dev.store)
    decreases |calls|
  {
    hide Kept, Legal, Step, Mirrors;
    if calls != [] {
      StepEndures(d, calls[0]);
      StepKeeps(d, calls[0]);
      RunEndures(Step(d, calls[0]), calls[1..]);
      hide Endures;
      EnduresInTurn(d.w.m.dev.store, Step(d, calls[0]).w.m.dev.store, Run(d, calls).w.m.dev.store);
    }
  }

  lemma {:induction false} EntryLastsThrough(d: Desk, calls: seq<FsCall>, path: string)
    requires Kept(d) && LegalRun(d, calls) && LastsThrough(d, calls, path)
    requires path in d.w.pending && d.w.pending[path].sent.Some?
    ensures var w := Run(d, calls).w; path in w.pending && w.pending[path].sent == d.w.pending[path].sent
    decreases |calls|
  {
    hide Kept, Legal, Step, EndsEntry, Mirrors;
    if calls != [] {
      EntryLasts(d, calls[0], path);
      StepKeeps(d, calls[0]);
      EntryLastsThrough(Step(d, calls[0]), calls[1..], path);
    }
  }

  // ----- the names of the entries -----

  /** Every entry carries the name its path ends in. */
  ghost predicate NamesFollow(w: World) {
    forall q <- w.pending :: Proper(q) ==> w.pending[q].name == SplitParent(q).1
  }

  lemma PathKeepsNames(w: World, w': World, path: string)
    requires NamesFollow(w) && Works(w, w', path)
    requires path in w'.pending && Proper(path) ==> w'.pending[path].name == SplitParent(path).1
    ensures NamesFollow(w')
  {
    hide BaseOk, Onward, HostKeeps, SplitParent, Proper;
  }

  /** A new entry for the object a path names carries the last name of the path. */
  lemma AnewIsNamed(w: World, w': World, path: string, bytes: seq<Byte>)
    requires BaseOk(w) && OpenedAnew(w, w', path, bytes) && Proper(path)
    ensures w'.pending[path].name == SplitParent(path).1
  {
    OkStore(w);
    LastPart(w.m.dev.store, path, w'.pending[path].replaced.value);
    hide BaseOk, EntryOk, Holds, Walk, Split, SplitParent, Proper;
  }

  lemma FileCallKeepsNames(d: Desk, c: FsCall)
    requires Kept(d) && Legal(d, c) && (OnFile(c) || IsClose(c)) && NamesFollow(d.w)
    ensures NamesFollow(Step(d, c).w)
  {
    hide Good, Works, Quiet, EntryOk, Holds, OpenedAnew, ObjectBytes, FhMarked, IsRange, Walk,
         FlagWrites, FlagTruncates, NamesFollow, Proper, SplitParent;
    KeptIsOk(d);
    match c {
      case OpenFile(id, p, flags) =>
        OpenKeepsNames(d.w, p, flags);
      case CreateFile(id, p) =>
        CreateCreates(d.w, p, Some(0));
        CreateKeepsNames(d.w, p);
      case WriteFile(id, bytes, offset) =>
        WriterIsHeld(d, id);
        WriteWrites(d.w, d.open[id].path, bytes, offset, []);
        WriteKeepsName(d.w, d.open[id].path, bytes, offset);
        OwnNameKept(d.w, Step(d, c).w, d.open[id].path);
      case ReadFile(id, want, offset) =>
        ReadReads(d.w, d.open[id].path, want, offset, Some(d.open[id].fh));
        QuietKeepsNames(d.w, Step(d, c).w);
      case FlushFile(id) =>
        FlushFlushes(d.w, d.open[id].path, Some(d.open[id].fh));
        OwnNameKept(d.w, Step(d, c).w, d.open[id].path);
      case ReleaseFile(id) =>
        ReleaseReleases(d.w, d.open[id].path, Some(d.open[id].fh));
        OwnNameKept(d.w, Step(d, c).w, d.open[id].path);
    }
  }

  lemma QuietKeepsNames(w: World, w': World)
    requires NamesFollow(w) && Quiet(w, w')
    ensures NamesFollow(w')
  {
    hide BaseOk, Onward, HostKeeps, SplitParent, Proper;
  }

  lemma OwnNameKept(w: World, w': World, path: string)
    requires NamesFollow(w) && Works(w, w', path)
    requires path in w'.pending ==> path in w.pending && w'.pending[path].name == w.pending[path].name
    ensures NamesFollow(w')
  {
    PathKeepsNames(w, w', path);
    hide BaseOk, Works, SplitParent, Proper;
  }

  lemma WriteKeepsName(w: World, path: string, bytes: seq<Byte>, offset: nat)
    requires path in w.pending
    ensures path in Write(w, path, bytes, offset).w.pending
    ensures Write(w, path, bytes, offset).w.pending[path].name == w.pending[path].name
  {
    hide Host.WriteLoop;
  }

  lemma OpenKeepsNames(w: World, path: string, flags: nat)
    requires BaseOk(w) && NamesFollow(w)
    ensures NamesFollow(Open(w, path, Some(flags)).w)
  {
    hide BaseOk, Works, Quiet, NamesFollow, OpenedAnew, Proper, SplitParent, ObjectBytes, FhMarked,
         FlagWrites,
         FlagTruncates, Open;
    OpenOpens(w, path, Some(flags));
    var r := Open(w, path, Some(flags));
    if path in w.pending {
      QuietKeepsNames(w, r.w);
    } else {
      if path in r.w.pending && Proper(path) {
        AnewIsNamed(w, r.w, path, if FlagTruncates(flags) then [] else ObjectBytes(w.m.dev.store, path));
      }
      PathKeepsNames(w, r.w, path);
    }
  }

  lemma CreateKeepsNames(w: World, path: string)
    requires NamesFollow(w) && Creates(w, Create(w, path, Some(0)), path, Some(0))
    ensures NamesFollow(Create(w, path, Some(0)).w)
  {
    hide Create, Works, Quiet, EntryOk, Holds, Walk, Split, FhMarked, NamesFollow, Proper, SplitParent;
    var r := Create(w, path, Some(0));
    if r.rc == 0 {
      PathKeepsNames(w, r.w, path);
    } else {
      QuietKeepsNames(w, r.w);
    }
  }

  lemma PathCallKeepsNames(d: Desk, c: FsCall)
    requires Kept(d) && Legal(d, c) && !OnFile(c) && !IsClose(c) && NamesFollow(d.w)
    ensures NamesFollow(Step(d, c).w)
  {
    hide Good, Works, Quiet, EntryOk, Holds, OpenedAnew, ObjectBytes, Tame, RenameStrands,
         Walk, ListingHolds, NamesFollow, Proper, SplitParent;
    KeptIsOk(d);
    match c {
      case TruncatePath(p, size) =>
        TruncateKeepsNames(d, p, size);
      case RenamePath(from, to) =>
        RenameKeepsEntries(d.w, from, to);
        SameNames(d.w, Step(d, c).w);
      case RemoveAt(p, wantDir) =>
        RemovePathRemoves(d.w, p, wantDir);
        QuietKeepsNames(d.w, Step(d, c).w);
      case MakeFolderAt(p) =>
        MkdirMakes(d.w, p);
        QuietKeepsNames(d.w, Step(d, c).w);
      case ListFolder(p) =>
        ReadFolderReads(d.w, p);
        QuietKeepsNames(d.w, Step(d, c).w);
    }
  }

  lemma SameNames(w: World, w': World)
    requires NamesFollow(w) && w'.pending == w.pending
    ensures NamesFollow(w')
  {
    hide SplitParent, Proper;
  }

  lemma TruncateKeepsNames(d: Desk, path: string, size: nat)
    requires Kept(d) && NamesFollow(d.w)
    ensures NamesFollow(Truncate(d.w, path, size).w)
  {
    hide Good, Works, EntryOk, Holds, OpenedAnew, ObjectBytes, NamesFollow, Proper, SplitParent,
         TruncateClosed;
    KeptIsOk(d);
    var w' := Truncate(d.w, path, size).w;
    if path in d.w.pending {
      TruncateOpenCuts(d.w, path, size, []);
      OwnNameKept(d.w, w', path);
    } else {
      TruncateClosedTruncates(d.w, path, size);
      if path in w'.pending && Proper(path) {
        AnewIsNamed(d.w, w', path, if size > 0 then ObjectBytes(d.w.m.dev.store, path) else []);
      }
      PathKeepsNames(d.w, w', path);
    }
  }

  lemma {:induction false} RunKeepsNames(d: Desk, calls: seq<FsCall>)
    requires Kept(d) && LegalRun(d, calls) && NamesFollow(d.w)
    ensures NamesFollow(Run(d, calls).w)
    decreases |calls|
  {
    hide Kept, Legal, Step, Mirrors, NamesFollow, OnFile, IsClose;
    if calls != [] {
      if OnFile(calls[0]) || IsClose(calls[0]) {
        FileCallKeepsNames(d, calls[0]);
      } else {
        PathCallKeepsNames(d, calls[0]);
      }
      StepKeeps(d, calls[0]);
      RunKeepsNames(Step(d, calls[0]), calls[1..]);
    }
  }

  /** After any run, every entry carries the name its path ends in. */
  lemma ReachedIsNamed(start: Desk, d: Desk)
    requires Reached(start, d)
    ensures NamesFollow(d.w)
  {
    hide Kept, Mirrors;
    var calls :| LegalRun(start, calls) && Run(start, calls) == d;
    StartIsKept(start);
    RunKeepsNames(start, calls);
  }

  // ----- changes after the send -----

  /** A file is flushed, which answers 0; then any legal calls follow that leave its entry in
      place, writes and changes of size among them; then its writer releases it. The release
      asks the phone for nothing. While the phone still holds the object the flush sent, it
      holds what the writes stood for at the flush, and that is what the spool holds at the
      end exactly when nothing has changed it since. */
  lemma LateChangeIsLostIff(d: Desk, path: string, fh: nat, calls: seq<FsCall>)
    requires Kept(d) && Mirrors(d) && path in d.w.pending && FhMarked(fh)
    requires d.w.pending[path].sent.None? && Flush(d.w, path, Some(fh)).rc == 0
    requires var sent := d.(w := Flush(d.w, path, Some(fh)).w);
      LegalRun(sent, calls) && LastsThrough(sent, calls, path)
    ensures var late := Run(d.(w := Flush(d.w, path, Some(fh)).w), calls);
      var closed := Release(late.w, path, Some(fh)).w;
      var slot := d.w.m.dev.store.next; var objects := closed.m.dev.store.objects;
      && closed.m == late.w.m && path in late.w.pending && 0 < slot < 0x1_0000_0000
      && (slot in objects ==>
            && objects[slot].data == Shadow(d, path)
            && (late.w.pending[path].broken.None? ==>
                  (objects[slot].data == Host.Contents(late.w.host, late.w.pending[path].spool)
                   <==> Shadow(late, path) == Shadow(d, path))))
  {
    var sent := d.(w := Flush(d.w, path, Some(fh)).w);
    FlushNowDelivers(d, path, fh);
    FlushFlushes(d.w, path, Some(fh));
    DeliveredIsThere(d.w.m.dev, sent.w.m.dev, d.w.pending[path], Shadow(d, path), d.w.host.count);
    FlushStep(d, path, fh);
    hide Flush, Release, Good, Kept, Works, Delivered, FhMarked, EntryOk, Step, Legal, EndsEntry;
    RunKeeps(sent, calls);
    RunEndures(sent, calls);
    EntryLastsThrough(sent, calls, path);
    var late := Run(sent, calls);
    SentCloseIsStill(late.w, path, fh);
    SlotIsGivenOut(d, path, fh);
    assert Holds(late.w, path, late.shadow[path]);
  }

  lemma SentCloseIsStill(w: World, path: string, fh: nat)
    requires path in w.pending && w.pending[path].sent.Some?
    ensures Release(w, path, Some(fh)).w.m == w.m
  {
  }

  /** The handle of the object that a flush sent is given out. */
  lemma SlotIsGivenOut(d: Desk, path: string, fh: nat)
    requires Kept(d) && d.w.m.dev.store.next in Flush(d.w, path, Some(fh)).w.m.dev.store.objects
    ensures d.w.m.dev.store.next < Flush(d.w, path, Some(fh)).w.m.dev.store.next
  {
    FlushStep(d, path, fh);
    KeptIsOk(d.(w := Flush(d.w, path, Some(fh)).w));
    OkStore(Flush(d.w, path, Some(fh)).w);
    hide Flush, Kept, BaseOk;
  }

  // ----- the path of a delivered file -----

  /** A send that works puts the new object last in the phone's order, in a folder. */
  ghost predicate PutsLast(before: Store, after: Store, folder: Handle)
    requires 0 < before.next < 0x1_0000_0000
  {
    after.order == before.order + [before.next as Handle] && IsFolder(before, folder)
  }

  lemma StreamPutsLast(m: MtpState, parent: Handle, name: string, bytes: seq<Byte>, size: nat)
    requires 0 < m.dev.store.next <= 0x1_0000_0000 && SendObjectStream(m, parent, name, bytes, size).ok
    ensures m.dev.store.next < 0x1_0000_0000
    ensures PutsLast(m.dev.store, SendObjectStream(m, parent, name, bytes, size).m.dev.store, parent)
  {
  }

  lemma ContentsPutLast(w: World, p: Pending, oldCopyExists: bool)
    requires 0 < w.m.dev.store.next <= 0x1_0000_0000 && SendContents(w, p, oldCopyExists).rc == 0
    ensures w.m.dev.store.next < 0x1_0000_0000
    ensures PutsLast(w.m.dev.store, SendContents(w, p, oldCopyExists).w.m.dev.store, p.parent)
  {
    var bytes := Host.Contents(w.host, p.spool);
    var t := SendObjectStream(w.m, p.parent, p.name, bytes, p.size);
    assert t.ok by {
      hide SendObjectStream, DeleteObject, RenameObject;
    }
    StreamPutsLast(w.m, p.parent, p.name, bytes, p.size);
    if p.replaced.Some? {
      RenameSafety.RequestsKeepOrder(t.m, p.replaced.value, "", ROOT);
    }
    hide SendObjectStream, DeleteObject, RenameObject;
  }

  /** Moving the old object aside, or removing it, makes no folder and no handle. */
  lemma OldMakesNothing(m: MtpState, prev: Handle, name: string, folder: Handle)
    ensures var s' := RenameObject(m, prev, name).m.dev.store;
      && s'.order == m.dev.store.order && s'.next == m.dev.store.next
      && (IsFolder(s', folder) ==> IsFolder(m.dev.store, folder))
    ensures var s' := DeleteObject(m, prev).m.dev.store;
      && s'.order == m.dev.store.order && s'.next == m.dev.store.next
      && (IsFolder(s', folder) ==> IsFolder(m.dev.store, folder))
  {
  }

  lemma SendPutsLast(w: World, p: Pending)
    requires WfStore(w.m.dev.store) && SendPending(w, p).rc == 0
    ensures w.m.dev.store.next < 0x1_0000_0000
    ensures PutsLast(w.m.dev.store, SendPending(w, p).w.m.dev.store, p.parent)
  {
    hide SendContents, AsideName, SendObjectStream, DeleteObject, RenameObject;
    if p.replaced.Some? {
      var prev := p.replaced.value;
      var w1 := SwapSafety.Checked(w);
      var aside := AsideName(p.name, w1.host.count);
      SwapSafety.SendCases(w, p);
      SwapSafety.CheckedKeepsStore(w);
      OldMakesNothing(w1.m, prev, aside, p.parent);
      if SendPending(w, p) == SendBeside(w1, p, prev) {
        ContentsPutLast(w1.(host := Host.Numbered(w1.host), m := RenameObject(w1.m, prev, aside).m), p, true);
      } else {
        ContentsPutLast(w1.(m := DeleteObject(w1.m, prev).m), p.(replaced := None), false);
      }
      hide SendPending, SwapSafety.Checked;
    } else {
      ContentsPutLast(w.(host := Host.SeekStart(w.host).h), p, true);
    }
  }

  /** A new object in a folder, and perhaps another of that folder gone or renamed. */
  ghost predicate Arrives(s: Store, s': Store, slot: Handle, prev: Option<Handle>, folder: Handle) {
    && s'.order == s.order + [slot] && slot !in s.objects && slot in s'.objects && s'.objects[slot].parent == folder
    && (prev.Some? ==> prev.value in s.objects && s.objects[prev.value].parent == folder)
    && (prev.Some? && prev.value in s'.objects ==> s'.objects[prev.value].parent == folder)
    && (forall k: Handle :: k != slot && prev != Some(k) ==>
          (k in s'.objects <==> k in s.objects) && (k in s.objects ==> s'.objects[k] == s.objects[k]))
  }

  lemma DeliveredArrives(before: Dev, after: Dev, p: Pending, bytes: seq<Byte>, n: nat)
    requires Delivered(before, after, p, bytes, n) && Placed(p, before.store) && WfStore(before.store)
    requires before.store.next < 0x1_0000_0000 && PutsLast(before.store, after.store, p.parent)
    ensures Arrives(before.store, after.store, before.store.next, p.replaced, p.parent)
    ensures after.store.objects[before.store.next] == Object(p.parent, p.name, false, bytes)
  {
    hide SwapSafety.EndsInVain;
  }

  lemma ArrivalKeepsStep(s: Store, s': Store, q: Handle, name: string, slot: Handle,
                         prev: Option<Handle>, folder: Handle)
    requires Arrives(s, s', slot, prev, folder) && IsFolder(s, q) && q != folder && prev != Some(q)
    ensures SameStep(s, s', q, name)
  {
    KidsSnoc(s'.objects, s.order, slot, q);
    assert KidsIn(s'.objects, s.order, q) + [] == KidsIn(s'.objects, s.order, q);
    FirstKidIsThere(s.objects, Kids(s, q), name);
    FirstKidStays(s.objects, s'.objects, s.order, q, name, slot);
  }

  lemma ArrivalWalkSurvives(s: Store, s': Store, parts: seq<string>, slot: Handle,
                            prev: Option<Handle>, folder: Handle)
    requires WfStore(s) && Arrives(s, s', slot, prev, folder) && Walk(s, ROOT, parts) == Some(folder)
    ensures Walk(s', ROOT, parts) == Some(folder)
  {
    forall i | 0 <= i < |parts|
      ensures Walk(s, ROOT, parts[..i]).Some? && SameStep(s, s', Walk(s, ROOT, parts[..i]).value, parts[i])
    {
      WalkPrefix(s, parts, i);
      WalkPrefix(s, parts, i + 1);
      assert parts[..i + 1] == parts[..i] + [parts[i]];
      WalkAppend(s, ROOT, parts[..i], parts[i]);
      NotTheFolder(s, parts, i, prev, folder);
      ArrivalKeepsStep(s, s', Walk(s, ROOT, parts[..i]).value, parts[i], slot, prev, folder);
    }
    hide Walk, SameStep, Arrives;
    WalkSurvives(s, s', parts);
  }

  lemma ArrivalFolderItself(s: Store, s': Store, parts: seq<string>, slot: Handle,
                            prev: Option<Handle>, folder: Handle)
    requires WfStore(s) && Arrives(s, s', slot, prev, folder) && IsFolder(s, folder) && Walk(s, ROOT, parts) == Some(folder)
    ensures IsFolder(s', folder) && slot in Kids(s', folder)
  {
    KidsAreThere(s'.objects, s'.order, folder);
    if prev == Some(folder) {
      assert parts != [];
      LastStep(s, parts, folder);
      WalkIsUnique(s, parts, parts[..|parts| - 1], folder);
    }
    hide Walk;
  }

  /** The object a delivery replaced carries its name no more. */
  lemma DeliveredLeavesOne(before: Dev, after: Dev, p: Pending, bytes: seq<Byte>, n: nat)
    requires Delivered(before, after, p, bytes, n) && before.store.next !in before.store.objects
    ensures OneGone(before.store.objects, after.store.objects, p.parent, p.name, before.store.next, p.replaced)
    ensures before.store.objects.Keys >= (after.store.objects - {before.store.next as Handle}).Keys
  {
    RenameSafety.AsideDiffers(p.name, n);
    hide AsideName, SwapSafety.EndsInVain;
  }

  /** The new object comes last, so it is the first of its name when it is the only one. */
  lemma DeliveredIsFirstIff(s: Store, s': Store, folder: Handle, name: string, slot: Handle,
                            prev: Option<Handle>)
    requires WfStore(s) && s.next == slot && s'.order == s.order + [slot] && Named(s'.objects, slot, folder, name)
    requires OneGone(s.objects, s'.objects, folder, name, slot, prev)
    requires s.objects.Keys >= (s'.objects - {slot}).Keys
    ensures FirstKid(s'.objects, Kids(s', folder), name) == Some(slot) <==> !NameTaken(s.objects, folder, name, prev)
  {
    FirstKidIff(s'.objects, s'.order, folder, name, slot);
    assert forall h <- s'.objects :: h != slot ==> h in s'.objects - {slot};
    LastIsBehind(s'.objects, s.order, folder, name, slot, None);
    hide NamedBefore, FirstKid, KidsIn, WfStore;
    assert slot !in s.objects && slot !in s.order by {
      NextIsNew(s);
    }
    OthersTaken(s.objects, s'.objects, folder, name, slot, prev);
  }

  lemma NextIsNew(s: Store)
    requires WfStore(s)
    ensures forall h <- s.objects :: h < s.next
    ensures forall h <- s.order :: h < s.next
  {
  }

  lemma OthersTaken(a: map<Handle, Object>, b: map<Handle, Object>, folder: Handle, name: string,
                    slot: Handle, prev: Option<Handle>)
    requires OneGone(a, b, folder, name, slot, prev) && slot !in a
    ensures NameTaken(b - {slot}, folder, name, None) <==> NameTaken(a, folder, name, prev)
  {
    if NameTaken(a, folder, name, prev) {
      var h: Handle :| Named(a, h, folder, name) && prev != Some(h);
      assert Named(b - {slot}, h, folder, name);
    }
    if NameTaken(b - {slot}, folder, name, None) {
      var h: Handle :| Named(b - {slot}, h, folder, name);
      assert Named(b, h, folder, name);
    }
  }

  /** After any run, and then a flush that answers 0, while the folder part of the path still
      leads to the folder of the entry: the path leads to the delivered object exactly when
      before the flush no object but the replaced one carried the name in that folder. */
  lemma DeliveredPathLeadsIff(start: Desk, d: Desk, path: string, fh: nat)
    requires Reached(start, d) && Generous(start.w.m.dev) && Proper(path) && FhMarked(fh)
    requires path in d.w.pending && d.w.pending[path].sent.None? && Flush(d.w, path, Some(fh)).rc == 0
    requires Walk(d.w.m.dev.store, ROOT, Split(SplitParent(path).0)) == Some(d.w.pending[path].parent)
    ensures var s, s' := d.w.m.dev.store, Flush(d.w, path, Some(fh)).w.m.dev.store; var p := d.w.pending[path];
      && 0 < s.next < 0x1_0000_0000
      && (Walk(s', ROOT, Split(path)) == Some(s.next) <==> !NameTaken(s.objects, p.parent, p.name, p.replaced))
  {
    ReachedIsKept(start, d);
    ReachedIsNamed(start, d);
    hide Reached;
    DeliveredLeads(d, path, fh);
  }

  lemma DeliveredLeads(d: Desk, path: string, fh: nat)
    requires Kept(d) && Mirrors(d) && path in d.w.pending && d.w.pending[path].sent.None? && FhMarked(fh)
    requires Flush(d.w, path, Some(fh)).rc == 0 && Proper(path)
    requires var p := d.w.pending[path];
      p.name == SplitParent(path).1 && Walk(d.w.m.dev.store, ROOT, Split(SplitParent(path).0)) == Some(p.parent)
    ensures var s, s' := d.w.m.dev.store, Flush(d.w, path, Some(fh)).w.m.dev.store; var p := d.w.pending[path];
      && 0 < s.next < 0x1_0000_0000
      && (Walk(s', ROOT, Split(path)) == Some(s.next) <==> !NameTaken(s.objects, p.parent, p.name, p.replaced))
  {
    var s, s' := d.w.m.dev.store, Flush(d.w, path, Some(fh)).w.m.dev.store;
    var p := d.w.pending[path];
    assert EntryOk(d.w, p);
    EntryPlaced(d.w, p);
    KeptIsOk(d);
    OkStore(d.w);
    FlushNowDelivers(d, path, fh);
    FlushIsSend(d.w, path, fh);
    SendPutsLast(Without(d.w, path), p);
    hide Kept, Mirrors, Flush, SendPending, FhMarked, BaseOk, EntryOk, Placed, Delivered, Walk, Split,
         SplitParent, Proper, PutsLast, OneGone, NameTaken;
    DeliveredArrives(d.w.m.dev, Flush(d.w, path, Some(fh)).w.m.dev, p, Shadow(d, path), d.w.host.count);
    DeliveredLeavesOne(d.w.m.dev, Flush(d.w, path, Some(fh)).w.m.dev, p, Shadow(d, path), d.w.host.count);
    var parts := Split(SplitParent(path).0);
    FolderOfSend(s, s', p.parent);
    ArrivalWalkSurvives(s, s', parts, s.next, p.replaced, p.parent);
    ArrivalFolderItself(s, s', parts, s.next, p.replaced, p.parent);
    SplitParentSplits(path);
    WalkAppend(s', ROOT, parts, p.name);
    DeliveredIsFirstIff(s, s', p.parent, p.name, s.next, p.replaced);
  }

  lemma FolderOfSend(s: Store, s': Store, folder: Handle)
    requires s.next < 0x1_0000_0000 && 0 < s.next && PutsLast(s, s', folder)
    ensures IsFolder(s, folder)
  {
  }

  lemma FlushIsSend(w: World, path: string, fh: nat)
    requires path in w.pending && w.pending[path].sent.None? && FhMarked(fh)
    ensures var s := SendPending(Without(w, path), w.pending[path]); var o := Flush(w, path, Some(fh));
      o.w.m == s.w.m && o.rc == s.rc
  {
    hide SendPending, FhMarked;
  }
}
