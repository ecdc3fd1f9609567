/** The copy-on-write swap of `send_pending`: what every state on the way holds, and what
    each way out leaves. `crates/mtpfs/src/main.rs`, lines 1118 to 1230. */
module SwapSafety {
  import opened Bytes
  import opened Wrappers
  import opened PathTree
  import opened Device
  import opened Backend
  import opened World
  import Host
  import Container

  // ----- a property of every store between two moments -----

  /** `P` holds of the store after each request between the two moments, and at the end. */
  ghost predicate Throughout(before: Dev, after: Dev, P: Store -> bool) {
    && before.log <= after.log
    && (forall i :: |before.log| <= i < |after.log| ==> P(after.log[i].after))
    && (P(before.store) ==> P(after.store))
  }

  lemma OneEvent(a: Dev, b: Dev, P: Store -> bool)
    requires |b.log| == |a.log| + 1 && b.log[..|a.log|] == a.log && b.log[|a.log|].after == b.store
    requires P(b.store)
    ensures Throughout(a, b, P)
  {
  }

  lemma NoEvent(a: Dev, P: Store -> bool)
    ensures Throughout(a, a, P)
  {
  }

  lemma InTurn(a: Dev, b: Dev, c: Dev, P: Store -> bool)
    requires Throughout(a, b, P) && Throughout(b, c, P)
    ensures Throughout(a, c, P)
  {
    assert forall i :: 0 <= i < |b.log| ==> b.log[i] == c.log[i];
  }

  // ----- the two copies -----

  /** What the swap is about: the object a write replaces, the name it moves aside under, and
      the object the new contents become. */
  datatype Swap = Swap(prev: Handle, was: Object, aside: string, slot: nat, goal: Object)

  function NewObject(w: World, p: Pending): Object {
    var bytes := Host.Contents(w.host, p.spool);
    Object(p.parent, p.name, false, if p.size <= |bytes| then bytes[..p.size] else bytes)
  }

  function SwapOf(w: World, p: Pending): Swap
    requires p.replaced.Some? && p.replaced.value in w.m.dev.store.objects
  {
    Swap(p.replaced.value, w.m.dev.store.objects[p.replaced.value], AsideName(p.name, w.host.count),
         w.m.dev.store.next, NewObject(w, p))
  }

  /** The old object is there, whole, under its name, the name it is written to, or aside. */
  ghost predicate OldThere(s: Store, x: Swap) {
    x.prev in s.objects
    && (exists n <- {x.was.name, x.goal.name, x.aside} :: s.objects[x.prev] == x.was.(name := n))
  }

  /** The new contents are there, whole, under the real name. */
  ghost predicate NewThere(s: Store, x: Swap) {
    0 <= x.slot < 0x1_0000_0000 && x.slot in s.objects && s.objects[x.slot] == x.goal
  }

  ghost predicate CopyThere(s: Store, x: Swap) {
    OldThere(s, x) || NewThere(s, x)
  }

  lemma RenamedIsThere(s: Store, x: Swap, name: string)
    requires x.prev in s.objects && OldThere(s, x)
    requires name == x.goal.name || name == x.aside
    ensures OldThere(s.(objects := s.objects[x.prev := s.objects[x.prev].(name := name)]), x)
  {
    var o := s.objects[x.prev].(name := name);
    assert o == x.was.(name := name);
    assert name in {x.was.name, x.goal.name, x.aside};
  }

  /** The announcement of a file takes a handle, and changes no object. */
  lemma AnnounceStep(d: Dev, parent: Handle, name: string, size: nat)
    requires WfStore(d.store)
    ensures var a := Device.Announce(d, parent, name, size, false);
      && |a.dev.log| == |d.log| + 1 && d.log <= a.dev.log && a.dev.log[|d.log|].after == a.dev.store
      && a.dev.store.objects == d.store.objects && a.dev.store.order == d.store.order && WfStore(a.dev.store)
      && (a.verdict.Done? ==> d.store.next < 0x1_0000_0000 && a.value == d.store.next && a.dev.store.next == a.value + 1)
  {
  }

  /** The bytes of a file make the object, or nothing. */
  lemma SendStep(d: Dev, h: Handle, parent: Handle, name: string, bytes: seq<Byte>, size: nat)
    requires WfStore(d.store) && 0 < h < d.store.next
    ensures var t := Device.Send(d, h, parent, name, bytes, size);
      && |t.dev.log| == |d.log| + 1 && d.log <= t.dev.log && t.dev.log[|d.log|].after == t.dev.store
      && WfStore(t.dev.store)
      && (if t.verdict.Done? then
            size <= |bytes| && t.dev.store.objects == d.store.objects[h := Object(parent, name, false, bytes[..size])]
          else t.dev.store == d.store)
  {
  }

  /** The send: first no store changes but for the next handle, and then the new object is
      there or it is not. */
  lemma SendStream(m: MtpState, parent: Handle, name: string, bytes: seq<Byte>, size: nat)
    requires WfStore(m.dev.store)
    ensures var t := SendObjectStream(m, parent, name, bytes, size); var s := m.dev.store; var s' := t.m.dev.store;
      && m.dev.log <= t.m.dev.log
      && (forall i :: |m.dev.log| <= i < |t.m.dev.log| ==>
            t.m.dev.log[i].after.objects == s.objects || t.m.dev.log[i].after == s')
      && WfStore(s')
      && (if t.ok then
            && size <= |bytes| && s.next < 0x1_0000_0000
            && s'.objects == s.objects[s.next := Object(parent, name, false, bytes[..size])]
          else s'.objects == s.objects)
  {
    AnnounceStep(m.dev, parent, name, size);
    var announced := Device.Announce(m.dev, parent, name, size, false);
    if size <= Container.MAX_PAYLOAD_LEN && announced.verdict.Done? {
      AnnouncedIsAbove(m.dev.store);
      SendStep(announced.dev, announced.value, parent, name, bytes, size);
    }
    hide Device.Announce, Device.Send, WfStore;
  }

  lemma AnnouncedIsAbove(s: Store)
    requires WfStore(s)
    ensures 0 < s.next
  {
  }

  /** Sending, and then clearing up, keeps one whole copy on the device at every step when
      the old one is there at the start. */
  lemma ContentsKeepACopy(w: World, p: Pending, x: Swap, oldCopyExists: bool)
    requires WfStore(w.m.dev.store) && x.slot == w.m.dev.store.next
    requires x.goal == NewObject(w, p) && (p.replaced == Some(x.prev) || p.replaced == None)
    requires OldThere(w.m.dev.store, x)
    ensures Throughout(w.m.dev, SendContents(w, p, oldCopyExists).w.m.dev, s => CopyThere(s, x))
    ensures CopyThere(SendContents(w, p, oldCopyExists).w.m.dev.store, x)
  {
    var P := (s: Store) => CopyThere(s, x);
    var t := SendObjectStream(w.m, p.parent, p.name, Host.Contents(w.host, p.spool), p.size);
    SendStream(w.m, p.parent, p.name, Host.Contents(w.host, p.spool), p.size);
    hide SendObjectStream, AsideName;
    assert P(t.m.dev.store);
    assert Throughout(w.m.dev, t.m.dev, P);
    if p.replaced.Some? {
      if t.ok {
        assert NewThere(t.m.dev.store, x);
        OneEvent(t.m.dev, DeleteObject(t.m, x.prev).m.dev, P);
        InTurn(w.m.dev, t.m.dev, DeleteObject(t.m, x.prev).m.dev, P);
      } else {
        RenamedIsThere(t.m.dev.store, x, p.name);
        OneEvent(t.m.dev, RenameObject(t.m, x.prev, p.name).m.dev, P);
        InTurn(w.m.dev, t.m.dev, RenameObject(t.m, x.prev, p.name).m.dev, P);
      }
    }
  }

  /** The device reports no room for a second copy. */
  predicate NoRoom(w: World, p: Pending) {
    FreeSpace(w.m.dev) < p.size
  }

  lemma BesideKeepsACopy(w: World, p: Pending)
    requires p.replaced.Some? && p.replaced.value in w.m.dev.store.objects
    requires WfStore(w.m.dev.store)
    ensures var x := SwapOf(w, p); var s := SendBeside(w, p, x.prev);
      && Throughout(w.m.dev, s.w.m.dev, s => CopyThere(s, x)) && CopyThere(s.w.m.dev.store, x)
  {
    var x := SwapOf(w, p);
    var P := (s: Store) => CopyThere(s, x);
    hide AsideName, SendContents, CopyThere;
    assert CopyThere(w.m.dev.store, x) && OldThere(w.m.dev.store, x) by {
      StartsThere(w, p);
    }
    var t := RenameObject(w.m, x.prev, x.aside);
    RenamedIsThere(w.m.dev.store, x, x.aside);
    StillCopy(t.m.dev.store, x);
    OneEvent(w.m.dev, t.m.dev, P);
    if t.ok {
      var w2 := w.(host := Host.Numbered(w.host), m := t.m);
      ContentsKeepACopy(w2, p, x, true);
      InTurn(w.m.dev, w2.m.dev, SendContents(w2, p, true).w.m.dev, P);
    }
  }

  lemma StartsThere(w: World, p: Pending)
    requires p.replaced.Some? && p.replaced.value in w.m.dev.store.objects
    ensures OldThere(w.m.dev.store, SwapOf(w, p)) && CopyThere(w.m.dev.store, SwapOf(w, p))
  {
    var x := SwapOf(w, p);
    assert x.was.(name := x.was.name) == x.was;
  }

  lemma StillCopy(s: Store, x: Swap)
    requires OldThere(s, x)
    ensures CopyThere(s, x)
  {
  }

  lemma HostKeepsFiles(w: World, p: Pending)
    ensures SendPending(w, p).w.host.files == w.host.files
    ensures SendPending(w, p).p.spool == p.spool
  {
  }

  /** Without room, the copy that may go away goes only while the spool holds the contents,
      and what ends without a copy on the device says that the spool must stay. */
  lemma InPlaceEnds(w: World, p: Pending)
    requires p.replaced.Some? && p.replaced.value in w.m.dev.store.objects
    requires WfStore(w.m.dev.store)
    ensures var x := SwapOf(w, p); var s := SendInPlace(w, p, x.prev);
      CopyThere(s.w.m.dev.store, x) || s.p.keepSpool
  {
    var x := SwapOf(w, p);
    hide AsideName;
    var t := DeleteObject(w.m, x.prev);
    if t.ok {
      var w1 := w.(m := t.m);
      SendStream(w1.m, p.parent, p.name, Host.Contents(w1.host, p.spool), p.size);
      hide SendObjectStream;
    } else {
      StartsThere(w, p);
    }
  }

  /** The mount after the checks of a send, when they let it through. */
  function Checked(w: World): World {
    w.(host := Host.SeekStart(w.host).h, m := w.m.(dev := Device.Storage(w.m.dev).dev))
  }

  /** The ways a send onto an existing file goes. */
  lemma SendCases(w: World, p: Pending)
    requires p.replaced.Some?
    ensures var s := SendPending(w, p); var w1 := Checked(w); var prev := p.replaced.value;
      || (s.w.m == w.m && s.p == p && s.rc != 0)
      || (s == Sent(w1, p, -ENOSPC))
      || (!NoRoom(w, p) && s == SendBeside(w1, p, prev))
      || (NoRoom(w, p) && s == SendInPlace(w1, p, prev))
  {
    hide SendBeside, SendInPlace;
  }

  /** The swap law. At every step of a send onto an existing file the device holds one whole
      copy, old or new; only when it reports no room for both may it hold neither, and then
      the spool, which no step of the send touches, is told to stay. */
  lemma SwapKeepsACopy(w: World, p: Pending)
    requires p.replaced.Some? && p.replaced.value in w.m.dev.store.objects
    requires WfStore(w.m.dev.store)
    ensures var x := SwapOf(w, p); var s := SendPending(w, p);
      && (!NoRoom(w, p) ==> Throughout(w.m.dev, s.w.m.dev, s => CopyThere(s, x)))
      && (CopyThere(s.w.m.dev.store, x) || (NoRoom(w, p) && s.p.keepSpool))
      && s.w.host.files == w.host.files
  {
    var x := SwapOf(w, p);
    var P := (s: Store) => CopyThere(s, x);
    var w1 := Checked(w);
    SendCases(w, p);
    HostKeepsFiles(w, p);
    StartsThere(w, p);
    NoEvent(w.m.dev, P);
    OneEvent(w.m.dev, w1.m.dev, P);
    BesideKeepsACopy(w1, p);
    InPlaceEnds(w1, p);
    hide SendPending, SendBeside, SendInPlace, AsideName, CopyThere, NoRoom;
    assert SwapOf(w1, p) == x;
    InTurn(w.m.dev, w1.m.dev, SendBeside(w1, p, x.prev).w.m.dev, P);
  }

  /** After a close with no flush before it, a whole copy is on the device or in the spool. */
  lemma CloseKeepsACopy(w: World, path: string, fi: Option<nat>)
    requires FhWrites(fi) && path in w.pending
    requires var p := w.pending[path];
      && p.sent.None? && p.replaced.Some? && p.replaced.value in w.m.dev.store.objects
      && p.spool in w.host.files
    requires WfStore(w.m.dev.store)
    ensures var p := w.pending[path]; var x := SwapOf(w, p); var w' := Release(w, path, fi).w;
      || CopyThere(w'.m.dev.store, x)
      || (p.spool in w'.host.files && w'.host.files[p.spool] == w.host.files[p.spool])
  {
    var p := w.pending[path];
    var out := w.(pending := w.pending - {path});
    SwapKeepsACopy(out, p);
    HostKeepsFiles(out, p);
    hide SendPending, CopyThere, AsideName;
  }

  /** The same for a flush, and then a close. */
  lemma FlushAndCloseKeepACopy(w: World, path: string, fi: Option<nat>)
    requires FhWrites(fi) && path in w.pending
    requires var p := w.pending[path];
      && p.sent.None? && p.replaced.Some? && p.replaced.value in w.m.dev.store.objects
      && p.spool in w.host.files
    requires WfStore(w.m.dev.store)
    ensures var p := w.pending[path]; var x := SwapOf(w, p);
      var w' := Release(Flush(w, path, fi).w, path, fi).w;
      || CopyThere(w'.m.dev.store, x)
      || (p.spool in w'.host.files && w'.host.files[p.spool] == w.host.files[p.spool])
  {
    var p := w.pending[path];
    var out := w.(pending := w.pending - {path});
    SwapKeepsACopy(out, p);
    HostKeepsFiles(out, p);
    hide SendPending, CopyThere, AsideName;
  }

  // ----- what each way out leaves -----

  /** The last request between two moments. */
  ghost predicate EndsWith(before: Dev, after: Dev, call: Call) {
    |before.log| < |after.log| && after.log[|after.log| - 1].call == call
  }

  ghost predicate EndsInVain(before: Dev, after: Dev, call: Call) {
    EndsWith(before, after, call) && !after.log[|after.log| - 1].verdict.Done?
  }

  type Objects = map<Handle, Object>

  /** What the objects are after an answer of 0: the new one is there whole under the real
      name, the old one is gone, or stands aside only because its removal failed. */
  ghost predicate Swapped(before: Dev, after: Dev, x: Swap, room: bool) {
    && 0 < x.slot < 0x1_0000_0000
    && (|| after.store.objects == (before.store.objects - {x.prev})[x.slot := x.goal]
        || (room && EndsInVain(before, after, CallDelete(x.prev))
            && after.store.objects == before.store.objects[x.prev := x.was.(name := x.aside)][x.slot := x.goal]))
  }

  /** What they are after an error: as before; or back under the name that was written to; or
      aside only because the rename back failed; or, without room, gone with the spool kept. */
  ghost predicate Unswapped(before: Dev, after: Dev, x: Swap, room: bool, kept: bool) {
    || after.store.objects == before.store.objects
    || (room && after.store.objects == before.store.objects[x.prev := x.was.(name := x.goal.name)])
    || (room && EndsInVain(before, after, CallRename(x.prev, x.goal.name))
        && after.store.objects == before.store.objects[x.prev := x.was.(name := x.aside)])
    || (!room && kept && after.store.objects == before.store.objects - {x.prev})
  }

  lemma BesideOutcome(w: World, p: Pending)
    requires p.replaced.Some? && p.replaced.value in w.m.dev.store.objects
    requires WfStore(w.m.dev.store)
    ensures var x := SwapOf(w, p); var s := SendBeside(w, p, x.prev);
      if s.rc == 0 then Swapped(w.m.dev, s.w.m.dev, x, true)
      else Unswapped(w.m.dev, s.w.m.dev, x, true, s.p.keepSpool)
  {
    var x := SwapOf(w, p);
    hide AsideName;
    var t := RenameObject(w.m, x.prev, x.aside);
    if t.ok {
      var w2 := w.(host := Host.Numbered(w.host), m := t.m);
      SendStream(w2.m, p.parent, p.name, Host.Contents(w2.host, p.spool), p.size);
      hide SendObjectStream;
      var u := SendObjectStream(w2.m, p.parent, p.name, Host.Contents(w2.host, p.spool), p.size);
      if u.ok {
        ClearOld(w.m.dev, u.m, x);
      } else {
        PutBack(w.m.dev, u.m, x, p.keepSpool);
      }
    }
  }

  lemma ClearOld(before: Dev, m: MtpState, x: Swap)
    requires 0 < x.slot < 0x1_0000_0000 && x.prev in before.store.objects && x.prev < x.slot
    requires before.log <= m.dev.log
    requires m.dev.store.objects == before.store.objects[x.prev := x.was.(name := x.aside)][x.slot := x.goal]
    ensures Swapped(before, DeleteObject(m, x.prev).m.dev, x, true)
  {
    var t := DeleteObject(m, x.prev);
    if t.ok {
      assert t.m.dev.store.objects == (before.store.objects - {x.prev})[x.slot := x.goal];
    }
  }

  lemma PutBack(before: Dev, m: MtpState, x: Swap, kept: bool)
    requires x.prev in before.store.objects && before.log <= m.dev.log
    requires m.dev.store.objects == before.store.objects[x.prev := x.was.(name := x.aside)]
    ensures Unswapped(before, RenameObject(m, x.prev, x.goal.name).m.dev, x, true, kept)
  {
    var t := RenameObject(m, x.prev, x.goal.name);
    if t.ok {
      assert t.m.dev.store.objects == before.store.objects[x.prev := x.was.(name := x.goal.name)];
    }
  }

  lemma InPlaceOutcome(w: World, p: Pending)
    requires p.replaced.Some? && p.replaced.value in w.m.dev.store.objects
    requires WfStore(w.m.dev.store)
    ensures var x := SwapOf(w, p); var s := SendInPlace(w, p, x.prev);
      if s.rc == 0 then Swapped(w.m.dev, s.w.m.dev, x, false)
      else Unswapped(w.m.dev, s.w.m.dev, x, false, s.p.keepSpool)
  {
    var x := SwapOf(w, p);
    hide AsideName;
    var t := DeleteObject(w.m, x.prev);
    if t.ok {
      var w1 := w.(m := t.m);
      SendStream(w1.m, p.parent, p.name, Host.Contents(w1.host, p.spool), p.size);
      hide SendObjectStream;
    }
  }

  /** The outcome law. An answer of 0 leaves the spool's bytes under the real name and every
      unrelated object alone; an error leaves one of the four states of `Unswapped`. */
  lemma SwapOutcome(w: World, p: Pending)
    requires p.replaced.Some? && p.replaced.value in w.m.dev.store.objects
    requires WfStore(w.m.dev.store)
    ensures var x := SwapOf(w, p); var s := SendPending(w, p); var room := !NoRoom(w, p);
      if s.rc == 0 then
        Swapped(w.m.dev, s.w.m.dev, x, room)
      else Unswapped(w.m.dev, s.w.m.dev, x, room, s.p.keepSpool)
  {
    var x := SwapOf(w, p);
    var w1 := Checked(w);
    BesideOutcome(w1, p);
    InPlaceOutcome(w1, p);
    assert SwapOf(w1, p) == x;
    CheckedKeepsStore(w);
    var beside, inPlace := SendBeside(w1, p, x.prev), SendInPlace(w1, p, x.prev);
    LaterStart(w.m.dev, w1.m.dev, beside.w.m.dev, x, true, beside.p.keepSpool);
    LaterStart(w.m.dev, w1.m.dev, inPlace.w.m.dev, x, false, inPlace.p.keepSpool);
    SendCases(w, p);
    hide SendPending, SendBeside, SendInPlace, AsideName, Swapped, NoRoom, Checked;
  }

  lemma CheckedKeepsStore(w: World)
    ensures Checked(w).m.dev.store == w.m.dev.store && w.m.dev.log <= Checked(w).m.dev.log
  {
  }

  /** A request that changed nothing may come first. */
  lemma LaterStart(before: Dev, mid: Dev, after: Dev, x: Swap, room: bool, kept: bool)
    requires mid.store == before.store && before.log <= mid.log
    ensures Swapped(mid, after, x, room) ==> Swapped(before, after, x, room)
    ensures Unswapped(mid, after, x, room, kept) ==> Unswapped(before, after, x, room, kept)
  {
  }

  lemma ContentsWhole(w: World, p: Pending, oldCopyExists: bool)
    requires WfStore(w.m.dev.store) && SendContents(w, p, oldCopyExists).rc == 0
    ensures p.size <= |Host.Contents(w.host, p.spool)|
  {
    SendStream(w.m, p.parent, p.name, Host.Contents(w.host, p.spool), p.size);
    hide SendObjectStream;
  }

  /** An answer of 0 means the spool held every byte of the size that was announced. */
  lemma SentWhole(w: World, p: Pending)
    requires WfStore(w.m.dev.store) && SendPending(w, p).rc == 0
    ensures p.size <= |Host.Contents(w.host, p.spool)|
  {
    if p.replaced.Some? {
      SendCases(w, p);
      var w1 := Checked(w);
      CheckedKeepsStore(w);
      hide SendPending, SendBeside, SendInPlace;
      if SendBeside(w1, p, p.replaced.value).rc == 0 {
        BesideWhole(w1, p, p.replaced.value);
      }
      if SendInPlace(w1, p, p.replaced.value).rc == 0 {
        InPlaceWhole(w1, p, p.replaced.value);
      }
    } else {
      var w1 := w.(host := Host.SeekStart(w.host).h);
      hide SendContents;
      ContentsWhole(w1, p, true);
    }
  }

  lemma BesideWhole(w: World, p: Pending, prev: Handle)
    requires WfStore(w.m.dev.store) && SendBeside(w, p, prev).rc == 0
    ensures p.size <= |Host.Contents(w.host, p.spool)|
  {
    var t := RenameObject(w.m, prev, AsideName(p.name, w.host.count));
    assert WfStore(t.m.dev.store);
    hide SendContents, AsideName, RenameObject;
    ContentsWhole(w.(host := Host.Numbered(w.host), m := t.m), p, true);
  }

  lemma InPlaceWhole(w: World, p: Pending, prev: Handle)
    requires WfStore(w.m.dev.store) && SendInPlace(w, p, prev).rc == 0
    ensures p.size <= |Host.Contents(w.host, p.spool)|
  {
    var t := DeleteObject(w.m, prev);
    assert WfStore(t.m.dev.store);
    hide SendContents, DeleteObject;
    ContentsWhole(w.(m := t.m), p.(replaced := None), false);
  }

  /** An error on the two-copy branch leaves the objects exactly as before, unless the last
      step, which gives the old object its name back, failed too. */
  lemma FailedSwapIsUndone(w: World, p: Pending)
    requires p.replaced.Some? && p.replaced.value in w.m.dev.store.objects
    requires WfStore(w.m.dev.store) && w.m.dev.store.objects[p.replaced.value].name == p.name
    requires !NoRoom(w, p) && SendPending(w, p).rc != 0
    ensures var after := SendPending(w, p).w.m.dev;
      || after.store.objects == w.m.dev.store.objects
      || EndsInVain(w.m.dev, after, CallRename(p.replaced.value, p.name))
  {
    SwapOutcome(w, p);
    var x := SwapOf(w, p);
    assert x.was.(name := x.goal.name) == x.was;
    assert w.m.dev.store.objects[x.prev := x.was] == w.m.dev.store.objects;
    hide SendPending, AsideName;
  }

  /** A new file: an answer of 0 adds exactly the spool's bytes under its name, and an error
      leaves every object as it was. */
  lemma NewFileOutcome(w: World, p: Pending)
    requires p.replaced.None? && WfStore(w.m.dev.store)
    ensures var s := SendPending(w, p); var before := w.m.dev.store; var after := s.w.m.dev.store;
      if s.rc == 0 then
        && p.size <= |Host.Contents(w.host, p.spool)| && before.next < 0x1_0000_0000
        && after.objects == before.objects[before.next := NewObject(w, p)]
      else after.objects == before.objects
  {
    SendStream(w.m, p.parent, p.name, Host.Contents(w.host, p.spool), p.size);
    hide SendObjectStream;
  }

  /** A spool that took only part of a write never reaches the device. */
  lemma BrokenIsNeverSent(w: World, p: Pending)
    requires p.broken.Some?
    ensures SendPending(w, p).w == w && SendPending(w, p).rc == -(p.broken.value as int)
  {
  }

  /** Contents that do not fit even in the place of the old object are refused with ENOSPC
      before any object changes, and nothing else is. */
  lemma NoSpaceIff(w: World, p: Pending)
    requires p.replaced.Some? && p.broken.None? && Host.SeekStart(w.host).ok
    ensures var s := SendPending(w, p); var free := FreeSpace(w.m.dev);
      && (s.rc == -ENOSPC <==> free < p.size && Min(free + OldSize(w.tree, p.replaced.value), U64_MAX) < p.size)
      && (s.rc == -ENOSPC ==> s.w.m.dev.store == w.m.dev.store && s.p == p)
  {
    var w1 := Checked(w);
    CheckedKeepsStore(w);
    NeverNoSpace(w1, p);
    hide SendBeside, SendInPlace, OldSize;
  }

  lemma NeverNoSpace(w: World, p: Pending)
    requires p.replaced.Some?
    ensures SendBeside(w, p, p.replaced.value).rc != -ENOSPC && SendInPlace(w, p, p.replaced.value).rc != -ENOSPC
  {
    hide AsideName, SendObjectStream, DeleteObject, RenameObject;
  }
}
