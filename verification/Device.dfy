/** The cellphone: a store of objects, and a script that says how each request goes.
    A request that does not end in `Done` changes nothing. Handles are never used twice. */
module Device {
  import opened Bytes
  import opened PathTree

  datatype Object = Object(parent: Handle, name: string, isDir: bool, data: seq<Byte>)

  /** `order` is the order in which the device lists objects, and `next` the handle the
      next object gets. */
  datatype Store = Store(objects: map<Handle, Object>, order: seq<Handle>, next: nat)

  /** The device did the work; it answered with a fault; or no answer came. */
  datatype Verdict = Done | Refused | Lost

  /** How one request goes: the verdict, the most bytes a partial read gives, and the free
      space a storage query reports. */
  datatype Reply = Reply(verdict: Verdict, take: nat, free: U64)

  /** A request; a read with the count of bytes that came. */
  datatype Call =
    | CallRename(h: Handle, name: string)
    | CallMove(h: Handle, parent: Handle)
    | CallDelete(h: Handle)
    | CallAnnounce(parent: Handle, name: string, size: nat)
    | CallSend(h: Handle)
    | CallList(folder: Handle)
    | CallStorage
    | CallRead(h: Handle, offset: nat, want: nat, got: nat)

  /** One request the device answered, and the store after it. */
  datatype Event = Event(call: Call, verdict: Verdict, after: Store)

  datatype Dev = Dev(store: Store, script: seq<Reply>, log: seq<Event>)

  /** A device after one request, with what the request gave. */
  datatype Did<T> = Did(dev: Dev, verdict: Verdict, value: T)

  function Next(d: Dev): Reply {
    if d.script == [] then Reply(Lost, 0, 0) else d.script[0]
  }

  /** How the request goes that is `k` requests away. */
  function ReplyAt(d: Dev, k: nat): Reply {
    if k < |d.script| then d.script[k] else Reply(Lost, 0, 0)
  }

  /** The device is ready to do that request. */
  predicate Goes(d: Dev, k: nat) {
    ReplyAt(d, k).verdict.Done?
  }

  /** The verdict on a request that makes sense to the device only when `valid`. */
  function Judge(d: Dev, valid: bool): Verdict {
    if Next(d).verdict.Done? && !valid then Refused else Next(d).verdict
  }

  function Record(d: Dev, call: Call, verdict: Verdict, after: Store): Dev {
    Dev(after, if d.script == [] then [] else d.script[1..], d.log + [Event(call, verdict, after)])
  }

  predicate IsFolder(s: Store, h: Handle) {
    h == ROOT || (h in s.objects && s.objects[h].isDir)
  }

  /** The objects a folder holds, in the order the device lists them. */
  function KidsIn(objects: map<Handle, Object>, order: seq<Handle>, folder: Handle): seq<Handle> {
    if order == [] then []
    else if order[0] in objects && objects[order[0]].parent == folder then
      [order[0]] + KidsIn(objects, order[1..], folder)
    else KidsIn(objects, order[1..], folder)
  }

  function Kids(s: Store, folder: Handle): seq<Handle> {
    KidsIn(s.objects, s.order, folder)
  }

  function EntryOf(s: Store, h: Handle): Entry
    requires h in s.objects
  {
    var o := s.objects[h];
    Entry(h, o.parent, o.name, o.isDir, |o.data|)
  }

  function EntriesOf(s: Store, hs: seq<Handle>): (es: seq<Entry>)
    requires forall h <- hs :: h in s.objects
    ensures |es| == |hs| && forall i :: 0 <= i < |hs| ==> es[i] == EntryOf(s, hs[i])
  {
    seq(|hs|, i requires 0 <= i < |hs| => EntryOf(s, hs[i]))
  }

  lemma {:induction false} KidsAreThere(objects: map<Handle, Object>, order: seq<Handle>, folder: Handle)
    ensures forall h :: h in KidsIn(objects, order, folder) <==>
                        h in order && h in objects && objects[h].parent == folder
  {
    if order != [] {
      KidsAreThere(objects, order[1..], folder);
    }
  }

  // ----- requests -----

  function Rename(d: Dev, h: Handle, name: string): Did<()> {
    var v := Judge(d, h in d.store.objects);
    var s := if v.Done? then d.store.(objects := d.store.objects[h := d.store.objects[h].(name := name)]) else d.store;
    Did(Record(d, CallRename(h, name), v, s), v, ())
  }

  function Move(d: Dev, h: Handle, parent: Handle): Did<()> {
    var v := Judge(d, h in d.store.objects && IsFolder(d.store, parent));
    var s := if v.Done? then d.store.(objects := d.store.objects[h := d.store.objects[h].(parent := parent)]) else d.store;
    Did(Record(d, CallMove(h, parent), v, s), v, ())
  }

  /** A folder that still holds objects is not removed. */
  function Delete(d: Dev, h: Handle): Did<()> {
    var v := Judge(d, h in d.store.objects && Kids(d.store, h) == []);
    var s := if v.Done? then d.store.(objects := d.store.objects - {h}) else d.store;
    Did(Record(d, CallDelete(h), v, s), v, ())
  }

  function Add(s: Store, h: Handle, o: Object): Store {
    s.(objects := s.objects[h := o], order := s.order + [h])
  }

  /** `SendObjectInfo`: the device takes the next handle. A folder is there at once; a file
      is there only when its bytes arrive. */
  function Announce(d: Dev, parent: Handle, name: string, size: nat, isDir: bool): Did<Handle> {
    var v := Judge(d, IsFolder(d.store, parent) && 0 < d.store.next < 0x1_0000_0000);
    if !v.Done? then Did(Record(d, CallAnnounce(parent, name, size), v, d.store), v, ROOT)
    else
      var h: Handle := d.store.next;
      var s := d.store.(next := h + 1);
      var s' := if isDir then Add(s, h, Object(parent, name, true, [])) else s;
      Did(Record(d, CallAnnounce(parent, name, size), v, s'), v, h)
  }

  /** `SendObject`: the bytes of the file announced as `h`. A reader that runs out before
      the announced size leaves no object. */
  function Send(d: Dev, h: Handle, parent: Handle, name: string, bytes: seq<Byte>, size: nat): Did<()> {
    var v := Judge(d, |bytes| >= size && h !in d.store.objects);
    var s := if v.Done? && |bytes| >= size then Add(d.store, h, Object(parent, name, false, bytes[..size])) else d.store;
    Did(Record(d, CallSend(h), v, s), v, ())
  }

  function List(d: Dev, folder: Handle): Did<seq<Entry>> {
    var v := Judge(d, IsFolder(d.store, folder));
    KidsAreThere(d.store.objects, d.store.order, folder);
    var es := if v.Done? then EntriesOf(d.store, Kids(d.store, folder)) else [];
    Did(Record(d, CallList(folder), v, d.store), v, es)
  }

  function Storage(d: Dev): Did<U64> {
    var v := Judge(d, true);
    Did(Record(d, CallStorage, v, d.store), v, Next(d).free)
  }

  /** `GetPartialObject`: a prefix of the range, as long as the device chooses. */
  function ReadPartial(d: Dev, h: Handle, offset: nat, want: nat): Did<seq<Byte>> {
    var v := Judge(d, h in d.store.objects);
    var bytes := if v.Done? then Prefix(d.store.objects[h].data, offset, want, Next(d).take) else [];
    Did(Record(d, CallRead(h, offset, want, |bytes|), v, d.store), v, bytes)
  }

  function Prefix(data: seq<Byte>, offset: nat, want: nat, take: nat): seq<Byte> {
    if offset >= |data| then [] else data[offset..offset + Min(Min(want, |data| - offset), take)]
  }

  // ----- what every store keeps -----

  /** Every object has a handle below the next one, not the root's, and a place in the order,
      which holds no handle that is yet to be given out. */
  ghost predicate WfStore(s: Store) {
    && 0 < s.next <= 0x1_0000_0000
    && (forall h <- s.objects :: 0 < h < s.next && h in s.order)
    && (forall h <- s.order :: h < s.next)
  }
}
