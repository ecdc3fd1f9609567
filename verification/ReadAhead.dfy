/** The one-range cache and the final-packet workaround agree with plain slicing.
    `crates/mtpfs/src/backend.rs`, lines 324 to 361 and 715 to 831. */
module ReadAhead {
  import opened Bytes
  import opened Wrappers
  import opened PathTree
  import opened Device
  import opened Backend

  /** The cache holds bytes that its object holds at the same place. */
  ghost predicate CacheHolds(m: MtpState) {
    m.cache.Some? ==>
      var c := m.cache.value;
      && c.handle in m.dev.store.objects
      && c.start + |c.data| <= |m.dev.store.objects[c.handle].data|
      && c.data == m.dev.store.objects[c.handle].data[c.start..c.start + |c.data|]
  }

  /** Every request parameter of a read of `want` bytes of a file of `size` fits its field. */
  predicate Fits(m: MtpState, want: nat, size: nat) {
    want < 0x1_0000_0000 && size <= (if m.wide then 0x1_0000_0000_0000_0000 else 0x1_0000_0000)
  }

  /** The device never answers a partial read with no bytes. */
  ghost predicate Generous(d: Dev) {
    forall i :: 0 <= i < |d.script| ==> d.script[i].take > 0
  }

  /** What a read leaves alone, and the requests it adds to the log. */
  ghost predicate OnlyRead(before: MtpState, after: MtpState) {
    && after.dev.store == before.dev.store
    && after.packet == before.packet && after.wide == before.wide
    && after.canRename == before.canRename && after.canMove == before.canMove
    && (Generous(before.dev) ==> Generous(after.dev))
    && before.dev.log <= after.dev.log
  }

  /** Every request of a stretch of the log was answered. */
  ghost predicate AllDone(before: Dev, after: Dev) {
    forall i :: |before.log| <= i < |after.log| ==> after.log[i].verdict.Done?
  }

  /** A read that makes a device stop: it reaches the end on a whole number of packets. */
  predicate Stalling(offset: nat, want: nat, size: nat, packet: nat) {
    packet > 1 && offset + want >= size && want % packet == 0
  }

  predicate Stalls(e: Event, size: nat, packet: nat) {
    e.call.CallRead? && Stalling(e.call.offset, e.call.want, size, packet)
  }

  ghost predicate NoStall(before: Dev, after: Dev, size: nat, packet: nat) {
    forall i :: |before.log| <= i < |after.log| ==> !Stalls(after.log[i], size, packet)
  }

  /** What a read of at most `want` bytes at `offset` of an object `data` does: it only reads,
      it stalls no device, it faults exactly when a request did, and it gives a prefix. */
  ghost predicate Reads(m: MtpState, r: ReadResult, data: seq<Byte>, offset: nat, want: nat)
    requires offset + want <= |data|
  {
    && OnlyRead(m, r.m)
    && NoStall(m.dev, r.m.dev, |data|, m.packet)
    && (r.bytes.Some? <==> AllDone(m.dev, r.m.dev))
    && (r.bytes.Some? ==> |r.bytes.value| <= want && r.bytes.value == data[offset..offset + |r.bytes.value|])
  }

  lemma OneRequest(m: MtpState, r: ReadResult, e: Event, data: seq<Byte>, offset: nat, want: nat)
    requires offset + want <= |data| && OnlyRead(m, r.m)
    requires r.m.dev.log == m.dev.log + [e] && !Stalls(e, |data|, m.packet)
    requires r.bytes.Some? <==> e.verdict.Done?
    requires r.bytes.Some? ==> |r.bytes.value| <= want && r.bytes.value == data[offset..offset + |r.bytes.value|]
    ensures Reads(m, r, data, offset, want)
  {
    assert r.m.dev.log[|m.dev.log|] == e;
  }

  /** Bytes read after bytes already there, as one result. */
  function Joined(out: seq<Byte>, r: ReadResult): ReadResult {
    ReadResult(r.m, if r.bytes.None? then None else Some(out + r.bytes.value))
  }

  lemma TwoStretches(m: MtpState, r: ReadResult, t: ReadResult, data: seq<Byte>, offset: nat,
                     first: nat, more: nat)
    requires offset + first + more <= |data|
    requires Reads(m, r, data, offset, first) && r.bytes.Some? && |r.bytes.value| == first
    requires Reads(r.m, t, data, offset + first, more)
    ensures Reads(m, Joined(r.bytes.value, t), data, offset, first + more)
  {
    if t.bytes.Some? {
      SlicesJoin(data, offset, offset + first, offset + first + |t.bytes.value|);
    }
    assert forall i :: 0 <= i < |r.m.dev.log| ==> r.m.dev.log[i] == t.m.dev.log[i];
  }

  /** Requests made earlier, of which nothing is due any more. */
  lemma LaterStretch(m: MtpState, mid: MtpState, r: ReadResult, t: ReadResult, data: seq<Byte>,
                     at: nat, ask: nat, offset: nat, want: nat)
    requires at + ask <= |data| && offset + want <= |data|
    requires Reads(m, r, data, at, ask) && r.bytes.Some?
    requires mid.dev == r.m.dev && mid.packet == r.m.packet && mid.wide == r.m.wide
    requires mid.canRename == r.m.canRename && mid.canMove == r.m.canMove
    requires Reads(mid, t, data, offset, want)
    ensures Reads(m, t, data, offset, want)
  {
    assert forall i :: 0 <= i < |r.m.dev.log| ==> r.m.dev.log[i] == t.m.dev.log[i];
  }

  lemma SlicesJoin(data: seq<Byte>, a: nat, b: nat, c: nat)
    requires a <= b <= c <= |data|
    ensures data[a..b] + data[b..c] == data[a..c]
  {
  }

  lemma ParametersCarry(m: MtpState, offset: nat, want: nat, size: nat)
    requires offset < size && Fits(m, want, size)
    ensures (if m.wide then offset % 0x1_0000_0000_0000_0000 else offset % 0x1_0000_0000) == offset
    ensures want % 0x1_0000_0000 == want
  {
  }

  lemma PrefixIsSlice(data: seq<Byte>, offset: nat, want: nat, take: nat)
    requires offset < |data|
    ensures var b := Prefix(data, offset, want, take);
      && |b| <= want && offset + |b| <= |data| && b == data[offset..offset + |b|]
      && (take > 0 && want > 0 ==> b != [])
  {
  }

  /** A range of an object whose request parameters fit. */
  ghost predicate Askable(m: MtpState, h: Handle, offset: nat, want: nat) {
    && h in m.dev.store.objects
    && offset + want <= |m.dev.store.objects[h].data|
    && Fits(m, want, |m.dev.store.objects[h].data|)
  }

  /** `r` read a prefix of the range, and not an empty one unless the device gave nothing. */
  ghost predicate GivesPrefix(m: MtpState, r: ReadResult, h: Handle, offset: nat, want: nat)
    requires Askable(m, h, offset, want)
  {
    && r.m == m.(dev := r.m.dev)
    && Reads(m, r, m.dev.store.objects[h].data, offset, want)
    && (r.bytes.Some? && Generous(m.dev) && want > 0 ==> r.bytes.value != [])
  }

  /** One request that stalls no device gives a prefix of its range. */
  lemma PartialReadIsPrefix(m: MtpState, h: Handle, offset: nat, want: nat)
    requires Askable(m, h, offset, want) && offset < |m.dev.store.objects[h].data|
    requires !Stalling(offset, want, |m.dev.store.objects[h].data|, m.packet)
    ensures GivesPrefix(m, PartialRead(m, h, offset, want), h, offset, want)
  {
    var data := m.dev.store.objects[h].data;
    ParametersCarry(m, offset, want, |data|);
    PrefixIsSlice(data, offset, want, Next(m.dev).take);
    var r := PartialRead(m, h, offset, want);
    OneRequest(m, r, r.m.dev.log[|m.dev.log|], data, offset, want);
  }

  /** The byte held back, after the rest of its range came whole. */
  lemma TailIsPrefix(m: MtpState, h: Handle, offset: nat, first: nat, r: ReadResult)
    requires Askable(m, h, offset, first + 1) && GivesPrefix(m, r, h, offset, first)
    requires r.bytes.Some? && |r.bytes.value| == first
    requires !Stalling(offset + first, 1, |m.dev.store.objects[h].data|, m.packet)
    ensures GivesPrefix(m, Joined(r.bytes.value, PartialRead(r.m, h, offset + first, 1)), h, offset, first + 1)
  {
    PartialReadIsPrefix(r.m, h, offset + first, 1);
    var t := PartialRead(r.m, h, offset + first, 1);
    hide PartialRead, NoStall, AllDone, Stalling;
    TwoStretches(m, r, t, m.dev.store.objects[h].data, offset, first, 1);
  }

  /** One request of `read_at` gives a prefix of the range, also when it is split in two. */
  lemma ReadFromDeviceIsPrefix(m: MtpState, h: Handle, offset: nat, want: nat)
    requires Askable(m, h, offset, want) && want > 0
    ensures GivesPrefix(m, ReadFromDevice(m, h, offset, want, |m.dev.store.objects[h].data|), h, offset, want)
  {
    hide PartialRead, Stalling, SplitFinalRead, GivesPrefix, Fits;
    var size := |m.dev.store.objects[h].data|;
    var first, short := SplitFinalRead(offset, want, size, m.packet).0, SplitFinalRead(offset, want, size, m.packet).1;
    SplitStallsNever(offset, want, size, m.packet);
    FitsLess(m, first, want, size);
    PartialReadIsPrefix(m, h, offset, first);
    var r := PartialRead(m, h, offset, first);
    if r.bytes.Some? && short && |r.bytes.value| == first {
      TailIsPrefix(m, h, offset, first, r);
    } else {
      PrefixOfMore(m, h, offset, first, want, r);
    }
  }

  lemma FitsLess(m: MtpState, less: nat, want: nat, size: nat)
    requires less <= want && Fits(m, want, size)
    ensures Fits(m, less, size)
  {
  }

  lemma PrefixOfMore(m: MtpState, h: Handle, offset: nat, first: nat, want: nat, r: ReadResult)
    requires first <= want && Askable(m, h, offset, want)
    requires Askable(m, h, offset, first) && GivesPrefix(m, r, h, offset, first)
    requires r.bytes.Some? && |r.bytes.value| == first ==> first == want
    ensures GivesPrefix(m, r, h, offset, want)
  {
  }

  /** The split parts join to the range, and neither of them stalls a device. */
  lemma SplitStallsNever(offset: nat, want: nat, size: nat, packet: nat)
    requires want > 0 && offset + want <= size
    ensures var (first, short) := SplitFinalRead(offset, want, size, packet);
      && first + (if short then 1 else 0) == want
      && !Stalling(offset, first, size, packet)
      && !Stalling(offset + first, 1, size, packet)
  {
    if packet > 0 && want % packet == 0 {
      OneLessIsNotWhole(want, packet);
    }
    if packet > 1 {
      UniqueDivMod(1, packet, 0, 1);
    }
  }

  lemma OneLessIsNotWhole(want: nat, packet: nat)
    requires packet > 0 && want > 0 && want % packet == 0
    ensures packet > 1 ==> (want - 1) % packet != 0
  {
    if packet > 1 {
      var q := want / packet;
      assert want - 1 == packet * (q - 1) + (packet - 1);
      assert (want - 1) / packet == q - 1 by {
        UniqueDivMod(want - 1, packet, q - 1, packet - 1);
      }
    }
  }

  lemma HitIsSlice(m: MtpState, h: Handle, at: nat, need: nat)
    requires CacheHolds(m) && h in m.dev.store.objects
    requires Hit(m, h, at, need).Some?
    ensures var data := m.dev.store.objects[h].data; var b := Hit(m, h, at, need).value;
      at + |b| <= |data| && b == data[at..at + |b|]
  {
    var c := m.cache.value;
    var data := m.dev.store.objects[h].data;
    var from := at - c.start;
    var to := Min(from + need, |c.data|);
    var b := c.data[from..to];
    assert Hit(m, h, at, need) == Some(b);
    forall i | 0 <= i < |b|
      ensures b[i] == data[at + i]
    {
      assert c.data[from + i] == data[c.start + (from + i)];
    }
  }

  /** What the loop of `read_at` gives once it ends. */
  ghost predicate GivesSlice(m: MtpState, r: ReadResult, h: Handle, offset: nat, want: nat)
    requires Askable(m, h, offset, want)
  {
    && Reads(m, r, m.dev.store.objects[h].data, offset, want) && CacheHolds(r.m)
    && (r.bytes.Some? && Generous(m.dev) ==> |r.bytes.value| == want)
  }

  lemma {:induction false} ReadLoopIsSlice(m: MtpState, h: Handle, offset: nat, want: nat, out: seq<Byte>)
    requires CacheHolds(m) && Askable(m, h, offset, want) && |out| <= want
    requires out == m.dev.store.objects[h].data[offset..offset + |out|]
    ensures GivesSlice(m, ReadLoop(m, h, offset, want, |m.dev.store.objects[h].data|, out), h, offset, want)
    decreases want - |out|, 1
  {
    hide Backend.Hit, Backend.ReadFromDevice, GivesSlice, Reads, CacheHolds, Fits;
    if |out| == want {
      NothingDue(m, h, offset, out);
    } else {
      var hit := Hit(m, h, offset + |out|, want - |out|);
      if hit.Some? {
        HitExtends(m, h, offset, want, out);
        ReadLoopIsSlice(m, h, offset, want, out + hit.value);
      } else {
        ReadLoopMiss(m, h, offset, want, out);
      }
    }
  }

  lemma NothingDue(m: MtpState, h: Handle, offset: nat, out: seq<Byte>)
    requires CacheHolds(m) && Askable(m, h, offset, |out|)
    requires out == m.dev.store.objects[h].data[offset..offset + |out|]
    ensures GivesSlice(m, ReadResult(m, Some(out)), h, offset, |out|)
  {
  }

  lemma HitExtends(m: MtpState, h: Handle, offset: nat, want: nat, out: seq<Byte>)
    requires CacheHolds(m) && Askable(m, h, offset, want) && |out| < want
    requires out == m.dev.store.objects[h].data[offset..offset + |out|]
    requires Hit(m, h, offset + |out|, want - |out|).Some?
    ensures var more := Hit(m, h, offset + |out|, want - |out|).value; var data := m.dev.store.objects[h].data;
      && offset + |out + more| <= |data|
      && out + more == data[offset..offset + |out + more|]
  {
    hide Backend.Hit, CacheHolds;
    HitIsSlice(m, h, offset + |out|, want - |out|);
    var more := Hit(m, h, offset + |out|, want - |out|).value;
    SlicesJoin(m.dev.store.objects[h].data, offset, offset + |out|, offset + |out| + |more|);
  }

  /** A turn of the loop that the cache cannot answer. */
  lemma {:induction false} ReadLoopMiss(m: MtpState, h: Handle, offset: nat, want: nat, out: seq<Byte>)
    requires CacheHolds(m) && Askable(m, h, offset, want) && |out| < want
    requires out == m.dev.store.objects[h].data[offset..offset + |out|]
    requires Hit(m, h, offset + |out|, want - |out|).None?
    ensures GivesSlice(m, ReadLoop(m, h, offset, want, |m.dev.store.objects[h].data|, out), h, offset, want)
    decreases want - |out|, 0
  {
    hide Backend.ReadFromDevice, Backend.Hit, GivesSlice, Reads, CacheHolds, GivesPrefix;
    var data := m.dev.store.objects[h].data;
    var at := offset + |out|;
    var ask := Min(Max(want - |out|, READ_AHEAD), |data| - at);
    ReadFromDeviceIsPrefix(m, h, at, ask);
    var r := ReadFromDevice(m, h, at, ask, |data|);
    MissExtends(m, h, offset, want, out, ask, r);
    if r.bytes.Some? && r.bytes.value != [] {
      var got := r.bytes.value;
      var m' := r.m.(cache := Some(ReadCache(h, at, got)));
      var out' := out + got[..Min(want - |out|, |got|)];
      ReadLoopIsSlice(m', h, offset, want, out');
      MissThenSlice(m, h, offset, want, at, ask, r, m', ReadLoop(m', h, offset, want, |data|, out'));
    }
  }

  /** The bytes of one miss: the answer when there is none, and else the cache and the bytes
      the loop goes on with. */
  lemma MissExtends(m: MtpState, h: Handle, offset: nat, want: nat, out: seq<Byte>, ask: nat, r: ReadResult)
    requires CacheHolds(m) && Askable(m, h, offset, want) && |out| < want
    requires out == m.dev.store.objects[h].data[offset..offset + |out|]
    requires ask > 0 && Askable(m, h, offset + |out|, ask) && GivesPrefix(m, r, h, offset + |out|, ask)
    ensures r.m.dev.store == m.dev.store
    ensures r.bytes.None? ==> GivesSlice(m, r, h, offset, want)
    ensures r.bytes == Some([]) ==> GivesSlice(m, ReadResult(r.m, Some(out)), h, offset, want)
    ensures r.bytes.Some? ==>
      var m' := r.m.(cache := Some(ReadCache(h, offset + |out|, r.bytes.value)));
      var out' := out + r.bytes.value[..Min(want - |out|, |r.bytes.value|)];
      var data := m.dev.store.objects[h].data;
      && CacheHolds(m') && Askable(m', h, offset, want)
      && out' == data[offset..offset + |out'|]
  {
    var data := m.dev.store.objects[h].data;
    var at := offset + |out|;
    if r.bytes.Some? {
      var got := r.bytes.value;
      var part := got[..Min(want - |out|, |got|)];
      assert part == data[at..at + |part|];
      SlicesJoin(data, offset, at, at + |part|);
    }
  }

  lemma MissThenSlice(m: MtpState, h: Handle, offset: nat, want: nat, at: nat, ask: nat,
                      r: ReadResult, mid: MtpState, t: ReadResult)
    requires Askable(m, h, offset, want) && Askable(m, h, at, ask)
    requires GivesPrefix(m, r, h, at, ask) && r.bytes.Some?
    requires mid == r.m.(cache := mid.cache) && Askable(mid, h, offset, want) && GivesSlice(mid, t, h, offset, want)
    ensures GivesSlice(m, t, h, offset, want)
  {
    hide CacheHolds;
    LaterStretch(m, mid, r, t, m.dev.store.objects[h].data, at, ask, offset, want);
  }

  lemma NothingRead(m: MtpState, data: seq<Byte>, offset: nat, want: nat, out: seq<Byte>)
    requires offset + want <= |data| && |out| <= want && out == data[offset..offset + |out|]
    ensures Reads(m, ReadResult(m, Some(out)), data, offset, want)
  {
  }

  /** How many bytes a read of a file of `size` is due. */
  function Due(offset: nat, want: nat, size: nat): nat {
    if offset >= size then 0 else Min(want, size - offset)
  }

  /** The read law. Whatever range the cache holds, a read gives a prefix of the exact slice;
      the whole slice when no answer is empty; and a fault exactly when a request faulted.
      No request it makes stalls a device, and it leaves every object alone. */
  lemma ReadAtIsSlice(m: MtpState, h: Handle, offset: nat, want: nat)
    requires CacheHolds(m) && h in m.dev.store.objects
    requires Fits(m, want, |m.dev.store.objects[h].data|)
    ensures var size := |m.dev.store.objects[h].data|; var due := Due(offset, want, size);
      var at := if due == 0 then 0 else offset;
      && Askable(m, h, at, due)
      && GivesSlice(m, ReadAt(m, h, offset, want, size), h, at, due)
  {
    hide Backend.ReadLoop, NoStall, AllDone;
    var data := m.dev.store.objects[h].data;
    if want > 0 && offset < |data| {
      ReadLoopIsSlice(m, h, offset, Min(want, |data| - offset), []);
    } else {
      NothingRead(m, data, 0, 0, []);
    }
  }

  /** The 32 bit operation asks for the right place exactly below 4 GiB; above it, the
      request wraps and the device reads from the start of the file. */
  lemma OffsetReachesTheDeviceIff(m: MtpState, h: Handle, offset: U64, want: U32)
    ensures var r := PartialRead(m, h, offset, want);
      && |r.m.dev.log| == |m.dev.log| + 1
      && var call := r.m.dev.log[|m.dev.log|].call;
         && call.CallRead? && call.h == h && call.want == want
         && (call.offset == offset <==> m.wide || offset < 0x1_0000_0000)
  {
  }

  /** A file of 4 GiB and one byte, whose last byte the 32 bit operation cannot reach. */
  lemma ByteAfter4GiBIsWrong(data: seq<Byte>)
    requires |data| == 0x1_0000_0001 && data[0] == 0 && data[0x1_0000_0000] == 1
    ensures var o := Object(ROOT, "video", false, data);
      var s := Store(map[1 := o], [1], 2);
      var m := MtpState(Dev(s, [Reply(Done, 9, 0)], []), None, 512, false, true, true);
      ReadAt(m, 1, 0x1_0000_0000, 1, |data|).bytes == Some([0])
  {
    var o := Object(ROOT, "video", false, data);
    var s := Store(map[1 := o], [1], 2);
    var m := MtpState(Dev(s, [Reply(Done, 9, 0)], []), None, 512, false, true, true);
    assert SplitFinalRead(0x1_0000_0000, 1, |data|, 512) == (1, false);
    assert data[0..1] == [0];
    assert PartialRead(m, 1, 0x1_0000_0000, 1).bytes == Some([0]);
    assert [] + [0][..1] == [0];
  }

  // ----- the cache over whole runs -----

  /** Everything a mount does that can change the device or the cache. */
  datatype MtpOp =
    | OpRead(h: Handle, offset: nat, want: nat)
    | OpSend(parent: Handle, name: string, bytes: seq<Byte>, size: nat)
    | OpDelete(h: Handle)
    | OpRename(h: Handle, name: string)
    | OpMove(h: Handle, parent: Handle)
    | OpMakeFolder(parent: Handle, name: string)

  /** One operation. A read passes the size the device holds, when it holds the object. */
  function MtpStep(m: MtpState, op: MtpOp): MtpState {
    match op
    case OpRead(h, offset, want) =>
      if h in m.dev.store.objects then ReadAt(m, h, offset, want, |m.dev.store.objects[h].data|).m else m
    case OpSend(parent, name, bytes, size) => SendObjectStream(m, parent, name, bytes, size).m
    case OpDelete(h) => DeleteObject(m, h).m
    case OpRename(h, name) => RenameObject(m, h, name).m
    case OpMove(h, parent) => MoveObject(m, h, parent).m
    case OpMakeFolder(parent, name) => MakeFolder(m, parent, name).m
  }

  function MtpRun(m: MtpState, ops: seq<MtpOp>): MtpState
    decreases |ops|
  {
    if ops == [] then m else MtpRun(MtpStep(m, ops[0]), ops[1..])
  }

  /** Each read of a run asks for what its parameters can carry. */
  ghost predicate RunFits(m: MtpState, ops: seq<MtpOp>)
    decreases |ops|
  {
    ops != [] ==>
      && (ops[0].OpRead? && ops[0].h in m.dev.store.objects ==>
            Fits(m, ops[0].want, |m.dev.store.objects[ops[0].h].data|))
      && RunFits(MtpStep(m, ops[0]), ops[1..])
  }

  lemma ChangedKeepsCache(m: MtpState, d: Dev, v: Verdict)
    requires CacheHolds(m) && (v.Lost? ==> d.store == m.dev.store)
    ensures CacheHolds(Changed(m, d, v))
  {
  }

  lemma SendKeepsCache(m: MtpState, parent: Handle, name: string, bytes: seq<Byte>, size: nat)
    requires CacheHolds(m)
    ensures CacheHolds(SendObjectStream(m, parent, name, bytes, size).m)
  {
    var announced := Device.Announce(m.dev, parent, name, size, false);
    ChangedKeepsCache(m, announced.dev, announced.verdict);
    var m1 := Changed(m, announced.dev, announced.verdict);
    var sent := Device.Send(m1.dev, announced.value, parent, name, bytes, size);
    ChangedKeepsCache(m1, sent.dev, sent.verdict);
    hide CacheHolds;
  }

  lemma StepKeepsCache(m: MtpState, op: MtpOp)
    requires CacheHolds(m)
    requires op.OpRead? && op.h in m.dev.store.objects ==> Fits(m, op.want, |m.dev.store.objects[op.h].data|)
    ensures CacheHolds(MtpStep(m, op))
  {
    match op {
      case OpRead(h, offset, want) =>
        hide Backend.ReadAt;
        if h in m.dev.store.objects {
          ReadAtIsSlice(m, h, offset, want);
        }
      case OpSend(parent, name, bytes, size) =>
        SendKeepsCache(m, parent, name, bytes, size);
      case OpDelete(h) =>
        var did := Device.Delete(m.dev, h);
        ChangedKeepsCache(m, did.dev, did.verdict);
      case OpRename(h, name) =>
        var did := Device.Rename(m.dev, h, name);
        ChangedKeepsCache(m, did.dev, did.verdict);
      case OpMove(h, parent) =>
        var did := Device.Move(m.dev, h, parent);
        ChangedKeepsCache(m, did.dev, did.verdict);
      case OpMakeFolder(parent, name) =>
        var did := Device.Announce(m.dev, parent, name, 0, true);
        ChangedKeepsCache(m, did.dev, did.verdict);
    }
  }

  lemma {:induction false} CacheHoldsOverRuns(m: MtpState, ops: seq<MtpOp>)
    requires CacheHolds(m) && RunFits(m, ops)
    ensures CacheHolds(MtpRun(m, ops))
    decreases |ops|
  {
    hide MtpStep, CacheHolds;
    if ops != [] {
      StepKeepsCache(m, ops[0]);
      CacheHoldsOverRuns(MtpStep(m, ops[0]), ops[1..]);
    }
  }

  /** After any run from an empty cache, a read gives the exact slice of what the object
      holds then, when the device answers each request with at least one byte. */
  lemma ReadAfterAnyRun(m: MtpState, ops: seq<MtpOp>, h: Handle, offset: nat, want: nat)
    requires m.cache.None? && RunFits(m, ops)
    requires h in MtpRun(m, ops).dev.store.objects
    requires Fits(MtpRun(m, ops), want, |MtpRun(m, ops).dev.store.objects[h].data|)
    ensures var now := MtpRun(m, ops); var data := now.dev.store.objects[h].data;
      var r := ReadAt(now, h, offset, want, |data|); var due := Due(offset, want, |data|);
      Generous(now.dev) && AllDone(now.dev, r.m.dev) ==>
        (if due == 0 then r.bytes == Some([]) else r.bytes == Some(data[offset..offset + due]))
  {
    hide Backend.ReadAt, MtpStep;
    CacheHoldsOverRuns(m, ops);
    ReadAtIsSlice(MtpRun(m, ops), h, offset, want);
  }
}
