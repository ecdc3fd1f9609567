/** Which calls of a run make the phone receive an object, read from its log of requests.
    `crates/mtpfs/src/main.rs`, lines 553 to 1520. */
module SendLog {
  import opened Bytes
  import opened Wrappers
  import opened PathTree
  import opened Device
  import opened Backend
  import opened World
  import opened Callbacks
  import opened RenameIndex
  import opened Runs
  import opened RunLaws
  import Mount = World
  import Host

  /** How many of the requests are sends of an object's bytes. */
  function SendsIn(log: seq<Event>): nat {
    if log == [] then 0 else (if log[0].call.CallSend? then 1 else 0) + SendsIn(log[1..])
  }

  /** Between two moments the log grew, by `n` sends among others. */
  ghost predicate Logs(before: Dev, after: Dev, n: nat) {
    before.log <= after.log && SendsIn(after.log[|before.log|..]) == n
  }

  lemma {:induction false} SendsInBoth(a: seq<Event>, b: seq<Event>)
    ensures SendsIn(a + b) == SendsIn(a) + SendsIn(b)
  {
    if a == [] {
      assert a + b == b;
    } else {
      assert (a + b)[1..] == a[1..] + b;
      SendsInBoth(a[1..], b);
    }
  }

  lemma LogsInTurn(a: Dev, b: Dev, c: Dev, n: nat, m: nat)
    requires Logs(a, b, n) && Logs(b, c, m)
    ensures Logs(a, c, n + m)
  {
    assert c.log[|a.log|..] == b.log[|a.log|..] + c.log[|b.log|..];
    SendsInBoth(b.log[|a.log|..], c.log[|b.log|..]);
    hide SendsIn;
  }

  lemma LogsNothing(d: Dev)
    ensures Logs(d, d, 0)
  {
  }

  lemma LogsOne(d: Dev, call: Call, verdict: Verdict, after: Store)
    ensures Logs(d, Record(d, call, verdict, after), if call.CallSend? then 1 else 0)
  {
    var d' := Record(d, call, verdict, after);
    assert d'.log[|d.log|..] == [Event(call, verdict, after)];
    assert [Event(call, verdict, after)][1..] == [];
  }

  // ----- one operation of the session -----

  lemma RequestsLogNone(m: MtpState, h: Handle, name: string, parent: Handle)
    ensures Logs(m.dev, RenameObject(m, h, name).m.dev, 0) && Logs(m.dev, MoveObject(m, h, parent).m.dev, 0)
    ensures Logs(m.dev, DeleteObject(m, h).m.dev, 0) && Logs(m.dev, MakeFolder(m, parent, name).m.dev, 0)
    ensures Logs(m.dev, Device.List(m.dev, h).dev, 0) && Logs(m.dev, Device.Storage(m.dev).dev, 0)
  {
    var rename, move := Device.Rename(m.dev, h, name), Device.Move(m.dev, h, parent);
    LogsOne(m.dev, CallRename(h, name), rename.verdict, rename.dev.store);
    LogsOne(m.dev, CallMove(h, parent), move.verdict, move.dev.store);
    var gone, made := Device.Delete(m.dev, h), Device.Announce(m.dev, parent, name, 0, true);
    LogsOne(m.dev, CallDelete(h), gone.verdict, gone.dev.store);
    LogsOne(m.dev, CallAnnounce(parent, name, 0), made.verdict, made.dev.store);
    var list, storage := Device.List(m.dev, h), Device.Storage(m.dev);
    LogsOne(m.dev, CallList(h), list.verdict, m.dev.store);
    LogsOne(m.dev, CallStorage, storage.verdict, m.dev.store);
    hide Logs, Kids, IsFolder;
  }

  lemma PartialLogsNone(m: MtpState, h: Handle, offset: nat, want: nat)
    ensures Logs(m.dev, PartialRead(m, h, offset, want).m.dev, 0)
  {
    var asked := if m.wide then offset % 0x1_0000_0000_0000_0000 else offset % 0x1_0000_0000;
    var did := Device.ReadPartial(m.dev, h, asked, want % 0x1_0000_0000);
    LogsOne(m.dev, CallRead(h, asked, want % 0x1_0000_0000, |did.value|), did.verdict, m.dev.store);
    hide Logs, Prefix;
  }

  /** A send of an object is at most one send, and exactly one when it works. */
  lemma StreamLogs(m: MtpState, parent: Handle, name: string, bytes: seq<Byte>, size: nat)
    ensures var t := SendObjectStream(m, parent, name, bytes, size);
      (Logs(m.dev, t.m.dev, 0) && !t.ok) || Logs(m.dev, t.m.dev, 1)
  {
    var a := Device.Announce(m.dev, parent, name, size, false);
    LogsNothing(m.dev);
    LogsOne(m.dev, CallAnnounce(parent, name, size), a.verdict, a.dev.store);
    var s := Device.Send(a.dev, a.value, parent, name, bytes, size);
    LogsOne(a.dev, CallSend(a.value), s.verdict, s.dev.store);
    hide Logs, IsFolder;
    LogsInTurn(m.dev, a.dev, s.dev, 0, 1);
  }

  lemma {:induction false} ReadLoopLogsNone(m: MtpState, h: Handle, offset: nat, want: nat, size: nat,
                                            out: seq<Byte>)
    requires |out| <= want && offset + want <= size
    ensures Logs(m.dev, ReadLoop(m, h, offset, want, size, out).m.dev, 0)
    decreases want - |out|
  {
    hide Logs, Hit, Backend.ReadFromDevice;
    LogsNothing(m.dev);
    if |out| < want {
      var at, need := offset + |out|, want - |out|;
      var hit := Hit(m, h, at, need);
      if hit.Some? {
        ReadLoopLogsNone(m, h, offset, want, size, out + hit.value);
      } else {
        var ask := Min(Max(need, READ_AHEAD), size - at);
        var r := Backend.ReadFromDevice(m, h, at, ask, size);
        FromDeviceLogsNone(m, h, at, ask, size);
        if r.bytes.Some? && r.bytes.value != [] {
          var m1 := r.m.(cache := Some(ReadCache(h, at, r.bytes.value)));
          var out1 := out + r.bytes.value[..Min(need, |r.bytes.value|)];
          ReadLoopLogsNone(m1, h, offset, want, size, out1);
          LogsInTurn(m.dev, r.m.dev, ReadLoop(m1, h, offset, want, size, out1).m.dev, 0, 0);
        }
      }
    }
  }

  lemma FromDeviceLogsNone(m: MtpState, h: Handle, offset: nat, want: nat, size: nat)
    ensures Logs(m.dev, Backend.ReadFromDevice(m, h, offset, want, size).m.dev, 0)
  {
    var first := SplitFinalRead(offset, want, size, m.packet).0;
    PartialLogsNone(m, h, offset, first);
    var r := PartialRead(m, h, offset, first);
    PartialLogsNone(r.m, h, offset + first, 1);
    LogsInTurn(m.dev, r.m.dev, PartialRead(r.m, h, offset + first, 1).m.dev, 0, 0);
    hide Logs, PartialRead, SplitFinalRead;
  }

  lemma ReadLogsNone(m: MtpState, h: Handle, offset: nat, want: nat, size: nat)
    ensures Logs(m.dev, ReadAt(m, h, offset, want, size).m.dev, 0)
  {
    LogsNothing(m.dev);
    if want != 0 && offset < size {
      ReadLoopLogsNone(m, h, offset, Min(want, size - offset), size, []);
    }
    hide Logs, ReadLoop;
  }

  // ----- the callbacks -----

  lemma {:induction false} ResolveLoopLogsNone(w: World, parts: seq<string>, rounds: nat)
    ensures Logs(w.m.dev, ResolveLoop(w, parts, rounds).w.m.dev, 0)
    decreases rounds
  {
    hide Logs, LookupFrom, Device.List, WithChildren;
    LogsNothing(w.m.dev);
    if rounds > 0 && LookupFrom(w.tree, ROOT, parts).NeedListing? {
      var folder := LookupFrom(w.tree, ROOT, parts).folder;
      var did := Device.List(w.m.dev, folder);
      RequestsLogNone(w.m, folder, "", ROOT);
      if did.verdict.Done? {
        var w1 := Listed(w, did, folder);
        ResolveLoopLogsNone(w1, parts, rounds - 1);
        LogsInTurn(w.m.dev, did.dev, ResolveLoop(w1, parts, rounds - 1).w.m.dev, 0, 0);
      }
    }
  }

  lemma ResolveLogsNone(w: World, path: string)
    ensures Logs(w.m.dev, Resolve(w, path).w.m.dev, 0)
  {
    ResolveLoopLogsNone(w, Split(path), MAX_WALK);
    hide Logs, ResolveLoop, Split;
  }

  lemma {:induction false} CopyLogsNone(w: World, h: Handle, size: nat, spool: nat, at: nat)
    ensures Logs(w.m.dev, CopyLoop(w, h, size, spool, at).w.m.dev, 0)
    decreases size - at
  {
    hide Logs, ReadAt, Host.Append;
    LogsNothing(w.m.dev);
    if at < size {
      var want := Min(READ_CHUNK, size - at);
      ReadLogsNone(w.m, h, at, want, size);
      var r := ReadAt(w.m, h, at, want, size);
      if r.bytes.Some? && r.bytes.value != [] {
        var put := Host.Append(w.host, spool, r.bytes.value);
        var w2 := w.(m := r.m, host := put.h);
        if put.ok {
          CopyLogsNone(w2, h, size, spool, at + |r.bytes.value|);
          LogsInTurn(w.m.dev, r.m.dev, CopyLoop(w2, h, size, spool, at + |r.bytes.value|).w.m.dev, 0, 0);
        }
      }
    }
  }

  lemma AdoptLogsNone(w: World, path: string, h: Handle, entry: Entry, keep: bool)
    ensures Logs(w.m.dev, AdoptForWrite(w, path, h, entry, keep).w.m.dev, 0)
  {
    AdoptNowLogsNone(w, path, h, entry, keep);
    AdoptNowLogsNone(w.(host := Host.Used(w.host)), path, h, entry, keep);
    LogsNothing(w.m.dev);
    hide Logs, AdoptNow;
  }

  lemma AdoptNowLogsNone(w: World, path: string, h: Handle, entry: Entry, keep: bool)
    ensures Logs(w.m.dev, AdoptNow(w, path, h, entry, keep).w.m.dev, 0)
  {
    var made := Host.MakeSpool(w.host);
    LogsNothing(w.m.dev);
    if made.id.Some? {
      CopyLogsNone(w.(host := made.h), h, entry.size, made.id.value, 0);
    }
    hide Logs, CopyLoop;
  }

  /** A send of an entry is at most one send, and exactly one when it answers 0. */
  ghost predicate OneSend(before: Dev, after: Dev, rc: int) {
    (Logs(before, after, 0) && rc != 0) || Logs(before, after, 1)
  }

  ghost predicate AtMostOneSend(before: Dev, after: Dev) {
    Logs(before, after, 0) || Logs(before, after, 1)
  }

  lemma OneIsAtMostOne(before: Dev, after: Dev, rc: int)
    requires OneSend(before, after, rc)
    ensures AtMostOneSend(before, after)
  {
  }

  lemma LaterAtMostOne(a: Dev, b: Dev, c: Dev)
    requires Logs(a, b, 0) && AtMostOneSend(b, c)
    ensures AtMostOneSend(a, c)
  {
    if Logs(b, c, 0) {
      LogsInTurn(a, b, c, 0, 0);
    } else {
      LogsInTurn(a, b, c, 0, 1);
    }
    hide Logs;
  }

  lemma NoneIsAtMostOne(a: Dev, b: Dev)
    requires Logs(a, b, 0)
    ensures AtMostOneSend(a, b)
  {
  }

  lemma LaterOneSend(a: Dev, b: Dev, c: Dev, rc: int)
    requires Logs(a, b, 0) && OneSend(b, c, rc)
    ensures OneSend(a, c, rc)
  {
    if Logs(b, c, 0) {
      LogsInTurn(a, b, c, 0, 0);
    } else {
      LogsInTurn(a, b, c, 0, 1);
    }
    hide Logs;
  }

  lemma EarlierOneSend(a: Dev, b: Dev, c: Dev, rc: int)
    requires OneSend(a, b, rc) && Logs(b, c, 0)
    ensures OneSend(a, c, rc)
  {
    if Logs(a, b, 0) {
      LogsInTurn(a, b, c, 0, 0);
    } else {
      LogsInTurn(a, b, c, 1, 0);
    }
    hide Logs;
  }

  lemma ContentsLog(w: World, p: Pending, oldCopyExists: bool)
    ensures var s := SendContents(w, p, oldCopyExists); OneSend(w.m.dev, s.w.m.dev, s.rc)
  {
    hide SendObjectStream, DeleteObject, RenameObject, Logs;
    var t := SendObjectStream(w.m, p.parent, p.name, Host.Contents(w.host, p.spool), p.size);
    StreamLogs(w.m, p.parent, p.name, Host.Contents(w.host, p.spool), p.size);
    if p.replaced.Some? {
      RequestsLogNone(t.m, p.replaced.value, p.name, ROOT);
      EarlierOneSend(w.m.dev, t.m.dev, SendContents(w, p, oldCopyExists).w.m.dev, SendContents(w, p, oldCopyExists).rc);
    }
  }

  lemma SendOverLogs(w: World, p: Pending, prev: Handle)
    ensures var s := SendOver(w, p, prev); OneSend(w.m.dev, s.w.m.dev, s.rc)
  {
    hide SendContents, DeleteObject, RenameObject, Logs, Device.Storage, AsideName, FreeSpace, OldSize,
         OneSend;
    var w1 := w.(m := w.m.(dev := Device.Storage(w.m.dev).dev));
    RequestsLogNone(w.m, prev, "", ROOT);
    var aside := AsideName(p.name, w1.host.count);
    RequestsLogNone(w1.m, prev, aside, ROOT);
    var beside := w1.(host := Host.Numbered(w1.host), m := RenameObject(w1.m, prev, aside).m);
    ContentsLog(beside, p, true);
    LaterOneSend(w1.m.dev, beside.m.dev, SendContents(beside, p, true).w.m.dev, SendContents(beside, p, true).rc);
    var gone := w1.(m := DeleteObject(w1.m, prev).m);
    var q := p.(replaced := None);
    ContentsLog(gone, q, false);
    LaterOneSend(w1.m.dev, gone.m.dev, SendContents(gone, q, false).w.m.dev, SendContents(gone, q, false).rc);
    FaultIsOneSend(w1.m.dev, beside.m.dev, -EIO);
    FaultIsOneSend(w1.m.dev, gone.m.dev, -EIO);
    LogsNothing(w1.m.dev);
    FaultIsOneSend(w1.m.dev, w1.m.dev, -ENOSPC);
    var s := SendOver(w, p, prev);
    assert OneSend(w1.m.dev, s.w.m.dev, s.rc);
    LaterOneSend(w.m.dev, w1.m.dev, s.w.m.dev, s.rc);
  }

  lemma FaultIsOneSend(a: Dev, b: Dev, rc: int)
    requires Logs(a, b, 0) && rc != 0
    ensures OneSend(a, b, rc)
  {
  }

  lemma SendPendingLogs(w: World, p: Pending)
    ensures var s := SendPending(w, p); OneSend(w.m.dev, s.w.m.dev, s.rc)
  {
    var w1 := w.(host := Host.SeekStart(w.host).h);
    LogsNothing(w.m.dev);
    if p.replaced.Some? {
      SendOverLogs(w1, p, p.replaced.value);
    }
    ContentsLog(w1, p, true);
    hide Logs, SendOver, SendContents;
  }

  // ----- the calls of a run -----

  /** The calls that send: a flush or a release that finds its entry unsent, and a truncate of
      a file that no program holds open. */
  predicate Sending(d: Desk, c: FsCall) {
    match c
    case FlushFile(id) => id in d.open && SendsEntry(d, c, d.open[id].path)
    case ReleaseFile(id) => id in d.open && SendsEntry(d, c, d.open[id].path)
    case TruncatePath(path, _) => path !in d.w.pending
    case _ => false
  }

  lemma CloseLogs(w: World, path: string, fi: Option<nat>)
    ensures var o := Flush(w, path, fi);
      if FhWrites(fi) && path in w.pending && w.pending[path].sent.None? then OneSend(w.m.dev, o.w.m.dev, o.rc)
      else Logs(w.m.dev, o.w.m.dev, 0)
    ensures var o := Release(w, path, fi);
      if FhWrites(fi) && path in w.pending && w.pending[path].sent.None? then AtMostOneSend(w.m.dev, o.w.m.dev)
      else Logs(w.m.dev, o.w.m.dev, 0)
  {
    LogsNothing(w.m.dev);
    if path in w.pending {
      var s := SendPending(Without(w, path), w.pending[path]);
      SendPendingLogs(Without(w, path), w.pending[path]);
      OneIsAtMostOne(w.m.dev, s.w.m.dev, s.rc);
    }
    hide Logs, OneSend, AtMostOneSend, SendPending, FhWrites;
  }

  lemma TruncateLogs(w: World, path: string, size: nat)
    ensures var o := Truncate(w, path, size);
      if path in w.pending then Logs(w.m.dev, o.w.m.dev, 0) else AtMostOneSend(w.m.dev, o.w.m.dev)
  {
    LogsNothing(w.m.dev);
    if path !in w.pending {
      ResolveLogsNone(w, path);
      ClosedIsAdoption(w, path, size);
      var f := Resolve(w, path);
      hide Logs, Resolve, TruncateClosed, TruncateRest, AdoptForWrite, AtMostOneSend;
      var a := Adoption(w, path, size);
      if a.Some? {
        AdoptLogsNone(f.w, path, f.h.value, EntryAt(f.w.tree, f.h.value).value, size > 0);
        LogsInTurn(w.m.dev, f.w.m.dev, a.value.w.m.dev, 0, 0);
        RestLogs(a.value, path, size);
        LaterAtMostOne(w.m.dev, a.value.w.m.dev, TruncateRest(a.value, path, size).w.m.dev);
      } else {
        NoneIsAtMostOne(w.m.dev, f.w.m.dev);
      }
    }
  }

  lemma RestLogs(a: Outcome, path: string, size: nat)
    ensures AtMostOneSend(a.w.m.dev, TruncateRest(a, path, size).w.m.dev)
  {
    LogsNothing(a.w.m.dev);
    NoneIsAtMostOne(a.w.m.dev, a.w.m.dev);
    if a.rc == 0 && path in a.w.pending {
      var cut := TruncateOpen(a.w, path, size);
      if cut.rc == 0 {
        var s := SendPending(Without(cut.w, path), cut.w.pending[path]);
        SendPendingLogs(Without(cut.w, path), cut.w.pending[path]);
        OneIsAtMostOne(cut.w.m.dev, s.w.m.dev, s.rc);
      }
    }
    hide Logs, OneSend, AtMostOneSend, SendPending, Dropped;
  }

  lemma OpenLogsNone(w: World, path: string, fi: Option<nat>)
    ensures Logs(w.m.dev, Open(w, path, fi).w.m.dev, 0) && Logs(w.m.dev, Create(w, path, fi).w.m.dev, 0)
  {
    hide Logs, Resolve, AdoptForWrite, FlagWrites, FlagTruncates, SplitParent;
    ResolveLogsNone(w, path);
    ResolveLogsNone(w, SplitParent(path).0);
    LogsNothing(w.m.dev);
    var f := Resolve(w, path);
    if f.h.Some? && EntryAt(f.w.tree, f.h.value).Some? {
      var entry := EntryAt(f.w.tree, f.h.value).value;
      var keep := !FlagTruncates(FlagsOf(fi));
      AdoptLogsNone(f.w, path, f.h.value, entry, keep);
      LogsInTurn(w.m.dev, f.w.m.dev, AdoptForWrite(f.w, path, f.h.value, entry, keep).w.m.dev, 0, 0);
    }
  }

  lemma ReadFileLogsNone(w: World, path: string, want: nat, offset: nat, fi: Option<nat>)
    ensures Logs(w.m.dev, Mount.Read(w, path, want, offset, fi).w.m.dev, 0)
  {
    hide Logs, Resolve, FhHandle, ReadObject;
    LogsNothing(w.m.dev);
    ResolveLogsNone(w, path);
    var f := Resolve(w, path);
    if fi.Some? {
      ReadObjectLogsNone(w, FhHandle(fi.value), want, offset);
    }
    if f.h.Some? {
      ReadObjectLogsNone(f.w, f.h.value, want, offset);
      LogsInTurn(w.m.dev, f.w.m.dev, ReadObject(f.w, f.h.value, want, offset).w.m.dev, 0, 0);
    }
  }

  lemma ReadObjectLogsNone(w: World, h: Handle, want: nat, offset: nat)
    ensures Logs(w.m.dev, ReadObject(w, h, want, offset).w.m.dev, 0)
  {
    LogsNothing(w.m.dev);
    var entry := EntryAt(w.tree, h);
    if entry.Some? && offset < entry.value.size {
      ReadLogsNone(w.m, h, offset, Min(want, entry.value.size - offset), entry.value.size);
    }
    hide Logs, ReadAt;
  }

  lemma FolderCallsLogNone(w: World, path: string, wantDir: bool)
    ensures Logs(w.m.dev, RemovePath(w, path, wantDir).w.m.dev, 0) && Logs(w.m.dev, ReadFolder(w, path).w.m.dev, 0)
  {
    hide Logs, Resolve, DeleteObject, Device.List, WithChildren;
    ResolveLogsNone(w, path);
    var f := Resolve(w, path);
    if f.h.Some? {
      RequestsLogNone(f.w.m, f.h.value, "", ROOT);
      LogsInTurn(w.m.dev, f.w.m.dev, DeleteObject(f.w.m, f.h.value).m.dev, 0, 0);
      LogsInTurn(w.m.dev, f.w.m.dev, Device.List(f.w.m.dev, f.h.value).dev, 0, 0);
    }
  }

  lemma MkdirLogsNone(w: World, path: string)
    ensures Logs(w.m.dev, Mkdir(w, path).w.m.dev, 0)
  {
    hide Logs, Resolve, MakeFolder, SplitParent;
    LogsNothing(w.m.dev);
    ResolveLogsNone(w, SplitParent(path).0);
    var f := Resolve(w, SplitParent(path).0);
    if f.h.Some? {
      RequestsLogNone(f.w.m, ROOT, SplitParent(path).1, f.h.value);
      LogsInTurn(w.m.dev, f.w.m.dev, MakeFolder(f.w.m, f.h.value, SplitParent(path).1).m.dev, 0, 0);
    }
  }

  lemma PlanLogsNone(w: World, from: string, to: string)
    ensures Logs(w.m.dev, PlanRename(w, from, to).w.m.dev, 0)
  {
    hide Logs, Resolve, SplitParent;
    var a := Resolve(w, from).w;
    ResolveLogsNone(w, from);
    var b := Resolve(a, SplitParent(from).0).w;
    ResolveLogsNone(a, SplitParent(from).0);
    LogsInTurn(w.m.dev, a.m.dev, b.m.dev, 0, 0);
    var c := Resolve(b, SplitParent(to).0).w;
    ResolveLogsNone(b, SplitParent(to).0);
    LogsInTurn(w.m.dev, b.m.dev, c.m.dev, 0, 0);
    var d := Resolve(c, to).w;
    ResolveLogsNone(c, to);
    LogsInTurn(w.m.dev, c.m.dev, d.m.dev, 0, 0);
  }

  lemma StepsLogNone(w: World, plan: Plan)
    ensures Logs(w.m.dev, SetAside(w, plan).w.m.dev, 0) && Logs(w.m.dev, MoveOver(w, plan).w.m.dev, 0)
    ensures Logs(w.m.dev, ClearAside(w, plan).m.dev, 0)
  {
    hide Logs, RenameObject, MoveObject, DeleteObject, AsideName;
    LogsNothing(w.m.dev);
    RequestsLogNone(w.m, plan.h, "", plan.newParent);
    if plan.taken.Some? {
      RequestsLogNone(w.m, plan.taken.value, AsideName(plan.newName, w.host.count), ROOT);
    }
  }

  lemma TakeNameLogsNone(w: World, plan: Plan)
    ensures Logs(w.m.dev, TakeName(w, plan).w.m.dev, 0)
  {
    hide Logs, RenameObject;
    LogsNothing(w.m.dev);
    RequestsLogNone(w.m, plan.h, plan.newName, ROOT);
    var t := RenameObject(w.m, plan.h, plan.newName);
    if plan.taken.Some? {
      RequestsLogNone(t.m, plan.taken.value, plan.newName, ROOT);
      LogsInTurn(w.m.dev, t.m.dev, RenameObject(t.m, plan.taken.value, plan.newName).m.dev, 0, 0);
    }
  }

  lemma RenameLogsNone(w: World, from: string, to: string)
    ensures Logs(w.m.dev, Mount.Rename(w, from, to).w.m.dev, 0)
  {
    hide Logs, PlanRename, SetAside, MoveOver, TakeName, ClearAside;
    PlanLogsNone(w, from, to);
    var pl := PlanRename(w, from, to);
    if pl.r.Success? {
      var plan := pl.r.value;
      var a := SetAside(pl.w, plan).w;
      var b := MoveOver(a, plan).w;
      var c := TakeName(b, plan).w;
      StepsLogNone(pl.w, plan);
      StepsLogNone(a, plan);
      TakeNameLogsNone(b, plan);
      StepsLogNone(c, plan);
      LogsInTurn(w.m.dev, pl.w.m.dev, a.m.dev, 0, 0);
      LogsInTurn(w.m.dev, a.m.dev, b.m.dev, 0, 0);
      LogsInTurn(w.m.dev, b.m.dev, c.m.dev, 0, 0);
      LogsInTurn(w.m.dev, c.m.dev, ClearAside(c, plan).m.dev, 0, 0);
    }
  }

  /** The log of one call holds at most one send of an object, and one only when the call is a
      sending one; a flush that sends and answers 0 logs exactly one. */
  ghost predicate CallLogs(d: Desk, c: FsCall)
    requires Legal(d, c)
  {
    var d' := Step(d, c);
    && (!Sending(d, c) ==> Logs(d.w.m.dev, d'.w.m.dev, 0))
    && (Sending(d, c) ==> Logs(d.w.m.dev, d'.w.m.dev, 0) || Logs(d.w.m.dev, d'.w.m.dev, 1))
    && (Sending(d, c) && c.FlushFile? && Flush(d.w, d.open[c.id].path, Some(d.open[c.id].fh)).rc == 0 ==>
          Logs(d.w.m.dev, d'.w.m.dev, 1))
  }

  lemma SendsOnlyWhereItMay(d: Desk, c: FsCall)
    requires Legal(d, c)
    ensures CallLogs(d, c)
  {
    hide Logs, Open, Create, Flush, Release, Truncate, Mount.Read, Mount.Rename, RemovePath, Mkdir,
         ReadFolder, Tame, RenameStrands, FhMarked;
    match c {
      case OpenFile(id, path, flags) => OpenLogsNone(d.w, path, Some(flags));
      case CreateFile(id, path) => OpenLogsNone(d.w, path, Some(0));
      case WriteFile(id, bytes, offset) =>
        LogsNothing(d.w.m.dev);
        WriteAsksNothing(d.w, d.open[id].path, bytes, offset);
      case ReadFile(id, want, offset) => ReadFileLogsNone(d.w, d.open[id].path, want, offset, Some(d.open[id].fh));
      case FlushFile(id) => CloseLogs(d.w, d.open[id].path, Some(d.open[id].fh));
      case ReleaseFile(id) => CloseLogs(d.w, d.open[id].path, Some(d.open[id].fh));
      case TruncatePath(path, size) => TruncateLogs(d.w, path, size);
      case RenamePath(from, to) => RenameLogsNone(d.w, from, to);
      case RemoveAt(path, wantDir) => FolderCallsLogNone(d.w, path, wantDir);
      case MakeFolderAt(path) => MkdirLogsNone(d.w, path);
      case ListFolder(path) => FolderCallsLogNone(d.w, path, true);
    }
  }

  lemma WriteAsksNothing(w: World, path: string, bytes: seq<Byte>, offset: nat)
    ensures Write(w, path, bytes, offset).w.m == w.m
  {
    hide Host.WriteLoop;
  }

  /** How many calls of a run may send. */
  function SendingCalls(d: Desk, calls: seq<FsCall>): nat
    requires LegalRun(d, calls)
    decreases |calls|
  {
    if calls == [] then 0
    else (if Sending(d, calls[0]) then 1 else 0) + SendingCalls(Step(d, calls[0]), calls[1..])
  }

  /** Over any run the phone receives at most one object for each flush or release that finds
      its entry unsent, and each truncate of a closed file. */
  lemma {:induction false} RunSendsAtMost(d: Desk, calls: seq<FsCall>)
    requires LegalRun(d, calls)
    ensures d.w.m.dev.log <= Run(d, calls).w.m.dev.log
    ensures SendsIn(Run(d, calls).w.m.dev.log[|d.w.m.dev.log|..]) <= SendingCalls(d, calls)
    decreases |calls|
  {
    hide Legal, Step, Sending;
    if calls != [] {
      SendsOnlyWhereItMay(d, calls[0]);
      RunSendsAtMost(Step(d, calls[0]), calls[1..]);
      var a, b, c := d.w.m.dev, Step(d, calls[0]).w.m.dev, Run(d, calls).w.m.dev;
      LogsInTurn(a, b, c, SendsIn(b.log[|a.log|..]), SendsIn(c.log[|b.log|..]));
      hide SendsIn;
    } else {
      LogsNothing(d.w.m.dev);
    }
  }
}
