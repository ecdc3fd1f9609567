/** Single requests to a device that does as it is told, for the runs that show a law at work. */
module AsTold {
  import opened Bytes
  import opened Wrappers
  import opened PathTree
  import opened Device
  import opened Backend
  import opened World
  import Container
  import Host
  import SwapSafety

  /** The device does the next request. */
  predicate Obeys(d: Dev) {
    d.script != [] && d.script[0].verdict.Done?
  }

  /** What a request leaves: this store, and the rest of the script. */
  ghost predicate Leaves(m: MtpState, t: Tried, objects: map<Handle, Object>) {
    && t.ok && t.m == m.(dev := t.m.dev, cache := None)
    && t.m.dev.store.objects == objects
    && m.dev.script != [] && t.m.dev.script == m.dev.script[1..]
  }

  lemma Renames(m: MtpState, h: Handle, name: string)
    requires Obeys(m.dev) && h in m.dev.store.objects
    ensures var t := RenameObject(m, h, name);
      && Leaves(m, t, m.dev.store.objects[h := m.dev.store.objects[h].(name := name)])
      && t.m.dev.store == m.dev.store.(objects := t.m.dev.store.objects)
  {
  }

  lemma Moves(m: MtpState, h: Handle, parent: Handle)
    requires Obeys(m.dev) && h in m.dev.store.objects && IsFolder(m.dev.store, parent)
    ensures var t := MoveObject(m, h, parent);
      && Leaves(m, t, m.dev.store.objects[h := m.dev.store.objects[h].(parent := parent)])
      && t.m.dev.store == m.dev.store.(objects := t.m.dev.store.objects)
  {
  }

  lemma Deletes(m: MtpState, h: Handle)
    requires Obeys(m.dev) && h in m.dev.store.objects
    requires forall k <- m.dev.store.objects :: m.dev.store.objects[k].parent != h
    ensures Leaves(m, DeleteObject(m, h), m.dev.store.objects - {h})
  {
    NoKids(m.dev.store.objects, m.dev.store.order, h);
  }

  lemma {:induction false} NoKids(objects: map<Handle, Object>, order: seq<Handle>, h: Handle)
    requires forall k <- objects :: objects[k].parent != h
    ensures KidsIn(objects, order, h) == []
  {
    if order != [] {
      NoKids(objects, order[1..], h);
    }
  }

  lemma Sends(m: MtpState, parent: Handle, name: string, bytes: seq<Byte>)
    requires |m.dev.script| >= 2 && m.dev.script[0].verdict.Done? && m.dev.script[1].verdict.Done?
    requires IsFolder(m.dev.store, parent) && 0 < m.dev.store.next < 0x1_0000_0000
    requires m.dev.store.next !in m.dev.store.objects && |bytes| <= Container.MAX_PAYLOAD_LEN
    ensures var t := SendObjectStream(m, parent, name, bytes, |bytes|);
      && t.ok && t.m == m.(dev := t.m.dev, cache := None)
      && t.m.dev.store.objects == m.dev.store.objects[m.dev.store.next := Object(parent, name, false, bytes)]
      && t.m.dev.script == m.dev.script[2..]
  {
    assert bytes[..|bytes|] == bytes;
  }

  /** With room for both copies, a send onto the one file of a phone goes beside it. */
  lemma GoesBeside(w: World, p: Pending)
    requires |w.m.dev.script| > 0 && w.m.dev.script[0].verdict.Done? && w.m.dev.script[0].free >= p.size
    requires p.broken.None? && p.replaced == Some(1) && Host.SeekStart(w.host).ok
    ensures SendPending(w, p) == SendBeside(SwapSafety.Checked(w), p, 1)
  {
    hide SendBeside, SendInPlace;
  }

  /** A send onto the one file of a phone that has room and does all it is asked. */
  lemma Replaces(w: World, was: seq<Byte>, bytes: seq<Byte>)
    requires w.m.dev.store == Store(map[1 := Object(ROOT, "a", false, was)], [1], 2)
    requires |w.m.dev.script| == 5 && w.m.dev.script[0].free >= |bytes|
    requires forall i :: 0 <= i < 5 ==> w.m.dev.script[i].verdict.Done?
    requires Host.SeekStart(w.host).ok && w.host.files == map[0 := bytes] && |bytes| <= Container.MAX_PAYLOAD_LEN
    ensures var s := SendPending(w, NewPending(ROOT, "a", 0, |bytes|, Some(1)));
      s.rc == 0 && s.w.m.dev.store.objects == map[2 := Object(ROOT, "a", false, bytes)]
  {
    hide SendPending, SendBeside;
    GoesBeside(w, NewPending(ROOT, "a", 0, |bytes|, Some(1)));
    BesideReplaces(SwapSafety.Checked(w), was, bytes);
  }

  lemma BesideReplaces(w: World, was: seq<Byte>, bytes: seq<Byte>)
    requires w.m.dev.store == Store(map[1 := Object(ROOT, "a", false, was)], [1], 2)
    requires |w.m.dev.script| == 4 && forall i :: 0 <= i < 4 ==> w.m.dev.script[i].verdict.Done?
    requires w.host.files == map[0 := bytes] && |bytes| <= Container.MAX_PAYLOAD_LEN
    ensures var s := SendBeside(w, NewPending(ROOT, "a", 0, |bytes|, Some(1)), 1);
      s.rc == 0 && s.w.m.dev.store.objects == map[2 := Object(ROOT, "a", false, bytes)]
  {
    hide AsideName, SendObjectStream, RenameObject, DeleteObject;
    var aside := AsideName("a", w.host.count);
    var t := RenameObject(w.m, 1, aside);
    Renames(w.m, 1, aside);
    var u := SendObjectStream(t.m, ROOT, "a", bytes, |bytes|);
    Sends(t.m, ROOT, "a", bytes);
    Deletes(u.m, 1);
  }

  /** A request the device refuses changes nothing. */
  lemma Refuses(m: MtpState, h: Handle, name: string, parent: Handle)
    requires m.dev.script != [] && m.dev.script[0].verdict.Refused?
    ensures var t := RenameObject(m, h, name);
      !t.ok && t.m.dev.store == m.dev.store && t.m.dev.script == m.dev.script[1..]
    ensures var t := MoveObject(m, h, parent);
      !t.ok && t.m.dev.store == m.dev.store && t.m.dev.script == m.dev.script[1..]
  {
  }
}
