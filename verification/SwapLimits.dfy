/** When a send leaves no whole copy on the device, exactly. `crates/mtpfs/src/main.rs`, lines
    1121 to 1231, and `crates/mtpfs/src/backend.rs`, lines 954 to 989. */
module SwapLimits {
  import opened Bytes
  import opened Wrappers
  import opened PathTree
  import opened Device
  import opened Backend
  import opened World
  import opened SwapSafety
  import AsTold
  import Container
  import Host

  /** The contents are whole, and fit in the place of the old object and not beside it. */
  predicate FitsInPlace(w: World, p: Pending)
    requires p.replaced.Some?
  {
    && p.broken.None? && Host.SeekStart(w.host).ok && NoRoom(w, p)
    && Min(FreeSpace(w.m.dev) + OldSize(w.tree, p.replaced.value), U64_MAX) >= p.size
  }

  /** Then the old object goes first, when the device does its removal. */
  predicate OldGoesFirst(w: World, p: Pending)
    requires p.replaced.Some?
  {
    FitsInPlace(w, p) && Goes(w.m.dev, 1) && Kids(w.m.dev.store, p.replaced.value) == []
  }

  /** The contents go out after it: a size the session can announce, a folder that is there, a
      spool that holds it all, and a device that does both requests. */
  predicate NewFollows(w: World, p: Pending)
    requires p.replaced.Some?
  {
    && p.size <= Container.MAX_PAYLOAD_LEN && p.size <= |Host.Contents(w.host, p.spool)|
    && IsFolder(w.m.dev.store, p.parent) && p.parent != p.replaced.value && w.m.dev.store.next < 0x1_0000_0000
    && Goes(w.m.dev, 2) && Goes(w.m.dev, 3)
  }

  lemma InPlaceOrNot(w: World, p: Pending)
    requires p.replaced.Some?
    ensures var s := SendPending(w, p); var w1 := Checked(w); var prev := p.replaced.value;
      if FitsInPlace(w, p) then s == SendInPlace(w1, p, prev)
      else s.w.m == w.m || s == Sent(w1, p, -ENOSPC) || s == SendBeside(w1, p, prev)
  {
    hide SendBeside, SendInPlace, OldSize;
  }

  lemma CheckedTakesOne(w: World)
    ensures var w1 := Checked(w);
      && w1.m.dev.store == w.m.dev.store && |w1.m.dev.log| == |w.m.dev.log| + 1 && w.m.dev.log <= w1.m.dev.log
      && w1.host.files == w.host.files && w1.host.count == w.host.count
      && forall k: nat :: Goes(w1.m.dev, k) <==> Goes(w.m.dev, k + 1)
  {
  }

  /** The removal of the old object, when the device does it. */
  lemma OldGoes(m: MtpState, h: Handle)
    requires h in m.dev.store.objects
    ensures var t := DeleteObject(m, h);
      && |t.m.dev.log| == |m.dev.log| + 1 && m.dev.log <= t.m.dev.log
      && t.m.dev.log[|m.dev.log|].after == t.m.dev.store
      && (t.ok <==> Goes(m.dev, 0) && Kids(m.dev.store, h) == [])
      && t.m.dev.store == (if t.ok then m.dev.store.(objects := m.dev.store.objects - {h}) else m.dev.store)
      && forall k: nat :: Goes(t.m.dev, k) <==> Goes(m.dev, k + 1)
  {
  }

  /** The send of the contents, when nothing stands in its way. */
  lemma StreamGoesIff(m: MtpState, parent: Handle, name: string, bytes: seq<Byte>, size: nat)
    requires WfStore(m.dev.store)
    ensures SendObjectStream(m, parent, name, bytes, size).ok <==>
      && size <= Container.MAX_PAYLOAD_LEN && size <= |bytes| && IsFolder(m.dev.store, parent)
      && m.dev.store.next < 0x1_0000_0000 && Goes(m.dev, 0) && Goes(m.dev, 1)
  {
  }

  /** Where neither copy is: the old object is gone, and the new one is not there. */
  lemma NeitherThere(s: Store, x: Swap)
    requires x.prev !in s.objects && (0 <= x.slot < 0x1_0000_0000 ==> x.slot !in s.objects)
    ensures !CopyThere(s, x)
  {
  }

  lemma NextIsFree(s: Store, prev: Handle)
    requires WfStore(s)
    ensures WfStore(s.(objects := s.objects - {prev}))
    ensures 0 <= s.next < 0x1_0000_0000 ==> s.next !in s.objects
  {
  }

  /** The exact step law. Every step of a send keeps a whole copy on the device, unless the
      contents fit only in the place of the old object and the device removes that. */
  lemma EveryStepKeepsIff(w: World, p: Pending)
    requires p.replaced.Some? && p.replaced.value in w.m.dev.store.objects && WfStore(w.m.dev.store)
    ensures var x := SwapOf(w, p);
      Throughout(w.m.dev, SendPending(w, p).w.m.dev, s => CopyThere(s, x)) <==> !OldGoesFirst(w, p)
  {
    var x := SwapOf(w, p);
    var P := (s: Store) => CopyThere(s, x);
    var w1 := Checked(w);
    InPlaceOrNot(w, p);
    CheckedTakesOne(w);
    StartsThere(w, p);
    NoEvent(w.m.dev, P);
    OneEvent(w.m.dev, w1.m.dev, P);
    hide SendPending, SendBeside, AsideName, CopyThere, FitsInPlace, Checked;
    assert SwapOf(w1, p) == x;
    if FitsInPlace(w, p) {
      InPlaceKeepsIff(w1, p);
      LaterThroughout(w.m.dev, w1.m.dev, SendInPlace(w1, p, x.prev).w.m.dev, P);
    } else {
      BesideKeepsACopy(w1, p);
      InTurn(w.m.dev, w1.m.dev, SendBeside(w1, p, x.prev).w.m.dev, P);
    }
  }

  lemma InPlaceKeepsIff(w: World, p: Pending)
    requires p.replaced.Some? && p.replaced.value in w.m.dev.store.objects && WfStore(w.m.dev.store)
    ensures var x := SwapOf(w, p); var s := SendInPlace(w, p, x.prev);
      && w.m.dev.log <= s.w.m.dev.log
      && (Throughout(w.m.dev, s.w.m.dev, s => CopyThere(s, x))
          <==> !(Goes(w.m.dev, 0) && Kids(w.m.dev.store, x.prev) == []))
  {
    var x := SwapOf(w, p);
    var P := (s: Store) => CopyThere(s, x);
    var t := DeleteObject(w.m, x.prev);
    OldGoes(w.m, x.prev);
    StartsThere(w, p);
    NextIsFree(w.m.dev.store, x.prev);
    hide DeleteObject, AsideName, CopyThere, OldThere, Kids, SendObjectStream;
    if t.ok {
      var w1 := w.(m := t.m);
      SendStream(w1.m, p.parent, p.name, Host.Contents(w1.host, p.spool), p.size);
      NeitherThere(t.m.dev.store, x);
      var after := SendInPlace(w, p, x.prev).w.m.dev;
      assert after.log[|w.m.dev.log|] == t.m.dev.log[|w.m.dev.log|];
    } else {
      OneEvent(w.m.dev, t.m.dev, P);
    }
  }

  /** A stretch after one that keeps `P` keeps it exactly when both together do. */
  lemma LaterThroughout(a: Dev, b: Dev, c: Dev, P: Store -> bool)
    requires Throughout(a, b, P) && P(a.store) && b.log <= c.log
    ensures Throughout(b, c, P) <==> Throughout(a, c, P)
  {
    assert forall i :: 0 <= i < |b.log| ==> b.log[i] == c.log[i];
  }

  /** And a send ends with no whole copy on the device exactly when, besides, the contents do
      not go out after it. */
  lemma EndsWithoutCopyIff(w: World, p: Pending)
    requires p.replaced.Some? && p.replaced.value in w.m.dev.store.objects && WfStore(w.m.dev.store)
    ensures !CopyThere(SendPending(w, p).w.m.dev.store, SwapOf(w, p)) <==> OldGoesFirst(w, p) && !NewFollows(w, p)
  {
    var x := SwapOf(w, p);
    var w1 := Checked(w);
    InPlaceOrNot(w, p);
    CheckedTakesOne(w);
    StartsThere(w, p);
    BesideKeepsACopy(w1, p);
    InPlaceEndsIff(w1, p);
    hide SendPending, SendBeside, SendInPlace, AsideName, CopyThere, Checked, FitsInPlace;
    assert SwapOf(w1, p) == x;
  }

  lemma InPlaceEndsIff(w: World, p: Pending)
    requires p.replaced.Some? && p.replaced.value in w.m.dev.store.objects && WfStore(w.m.dev.store)
    ensures var x := SwapOf(w, p); var bytes := Host.Contents(w.host, p.spool); var s := w.m.dev.store;
      !CopyThere(SendInPlace(w, p, x.prev).w.m.dev.store, x) <==>
        && Goes(w.m.dev, 0) && Kids(s, x.prev) == []
        && !(p.size <= Container.MAX_PAYLOAD_LEN && p.size <= |bytes| && IsFolder(s, p.parent)
             && p.parent != x.prev && s.next < 0x1_0000_0000 && Goes(w.m.dev, 1) && Goes(w.m.dev, 2))
  {
    var x := SwapOf(w, p);
    var t := DeleteObject(w.m, x.prev);
    OldGoes(w.m, x.prev);
    StartsThere(w, p);
    NextIsFree(w.m.dev.store, x.prev);
    hide DeleteObject, AsideName, Kids, SendObjectStream, Goes;
    if t.ok {
      var bytes := Host.Contents(w.host, p.spool);
      StreamGoesIff(t.m, p.parent, p.name, bytes, p.size);
      SendStream(t.m, p.parent, p.name, bytes, p.size);
      var after := SendInPlace(w, p, x.prev).w.m.dev.store;
      if SendObjectStream(t.m, p.parent, p.name, bytes, p.size).ok {
        assert NewThere(after, x);
      } else {
        NeitherThere(after, x);
      }
    }
  }

  /** Contents of one byte more than the session can announce, for a file of one byte, on a
      phone with room for all but the last of them: the phone removes the old file, and the
      mount then makes no request for the new one. */
  lemma OversizeIsRemovedFirst(w: World, bytes: seq<Byte>)
    requires |bytes| == Container.MAX_PAYLOAD_LEN + 1
    requires w.m.dev.store == Store(map[1 := Object(ROOT, "a", false, [7])], [1], 2)
    requires w.tree.entries == map[1 := Entry(1, ROOT, "a", false, 1)] && w.host.files == map[0 := bytes]
    requires Host.SeekStart(w.host).ok && |w.m.dev.script| == 2 && w.m.dev.script[0].free == Container.MAX_PAYLOAD_LEN
    requires w.m.dev.script[0].verdict.Done? && w.m.dev.script[1].verdict.Done?
    ensures var s := SendPending(w, NewPending(ROOT, "a", 0, |bytes|, Some(1)));
      && s.rc == -EIO && s.p.keepSpool && s.w.m.dev.store.objects == map[]
      && |s.w.m.dev.log| == |w.m.dev.log| + 2
  {
    var p := NewPending(ROOT, "a", 0, |bytes|, Some(1));
    InPlaceOrNot(w, p);
    CheckedTakesOne(w);
    var w1 := Checked(w);
    AsTold.Deletes(w1.m, 1);
    OldGoes(w1.m, 1);
    hide SendPending, DeleteObject;
  }
}
