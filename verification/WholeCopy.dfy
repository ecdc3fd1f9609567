/** When the copy of an object into a spool is whole: exactly when its last request was not
    answered with no bytes. `crates/mtpfs/src/main.rs`, lines 780 to 811. */
module WholeCopy {
  import opened Bytes
  import opened Wrappers
  import opened PathTree
  import opened Device
  import opened Backend
  import opened ReadAhead
  import opened World
  import opened Upkeep
  import opened Callbacks
  import opened Walks
  import AsTold
  import Host

  /** A read the device answered, with no bytes. */
  predicate EmptyRead(e: Event) {
    e.call.CallRead? && e.verdict.Done? && e.call.got == 0
  }

  /** The last request between two moments is such a read. */
  ghost predicate EndsEmpty(before: Dev, after: Dev) {
    |before.log| < |after.log| && EmptyRead(after.log[|after.log| - 1])
  }

  /** Some byte at `at` or after it is not in the cache. */
  ghost predicate Gap(m: MtpState, h: Handle, at: nat, size: nat) {
    exists p: nat :: at <= p < size && Misses(m, h, p)
  }

  predicate Misses(m: MtpState, h: Handle, p: nat) {
    Hit(m, h, p, 1).None?
  }

  // ----- one request -----

  /** What one request of the loop logs: an empty answer ends it exactly when it gives no bytes,
      or when it gives all but the byte that was held back. */
  lemma RequestEnds(m: MtpState, h: Handle, offset: nat, want: nat, size: nat)
    requires want > 0
    ensures var r := ReadFromDevice(m, h, offset, want, size);
      && m.dev.log <= r.m.dev.log && |m.dev.log| < |r.m.dev.log|
      && (r.bytes == Some([]) ==> EndsEmpty(m.dev, r.m.dev))
      && (r.bytes.Some? && r.bytes.value != [] && EndsEmpty(m.dev, r.m.dev) ==> |r.bytes.value| < want)
  {
    var (first, short) := SplitFinalRead(offset, want, size, m.packet);
    OneRead(m, h, offset, first);
    var r := PartialRead(m, h, offset, first);
    OneRead(r.m, h, offset + first, 1);
    hide PartialRead;
  }

  lemma OneRead(m: MtpState, h: Handle, offset: nat, want: nat)
    ensures var r := PartialRead(m, h, offset, want);
      && |r.m.dev.log| == |m.dev.log| + 1 && m.dev.log <= r.m.dev.log
      && (r.bytes.Some? ==> (EmptyRead(r.m.dev.log[|m.dev.log|]) <==> r.bytes.value == []))
  {
  }

  // ----- a read -----

  /** Whenever the last request so far gave no bytes, a byte that is still to come is missing. */
  ghost predicate MissingIfEmpty(start: Dev, m: MtpState, h: Handle, at: nat, size: nat) {
    && |start.log| <= |m.dev.log|
    && (EndsEmpty(start, m.dev) ==> Gap(m, h, at, size))
  }

  /** What a read of `want` bytes leaves: the same, and an empty answer last when it is short. */
  ghost predicate ReadLeaves(start: Dev, r: ReadResult, h: Handle, offset: nat, want: nat, size: nat) {
    r.bytes.Some? ==>
      && MissingIfEmpty(start, r.m, h, offset + |r.bytes.value|, size)
      && (|r.bytes.value| < want ==> EndsEmpty(start, r.m.dev))
  }

  lemma HitKeepsGap(start: Dev, m: MtpState, h: Handle, at: nat, need: nat, size: nat)
    requires MissingIfEmpty(start, m, h, at, size) && Hit(m, h, at, need).Some?
    ensures MissingIfEmpty(start, m, h, at + |Hit(m, h, at, need).value|, size)
  {
    if EndsEmpty(start, m.dev) {
      var p: nat :| at <= p < size && Misses(m, h, p);
      assert p >= at + |Hit(m, h, at, need).value|;
      assert Misses(m, h, p);
    }
  }

  lemma EmptyLeavesGap(start: Dev, m: MtpState, r: ReadResult, h: Handle, at: nat, need: nat, size: nat)
    requires |start.log| <= |m.dev.log| && EndsEmpty(m.dev, r.m.dev) && r.m == m.(dev := r.m.dev)
    requires at < size && need > 0 && Hit(m, h, at, need).None?
    ensures EndsEmpty(start, r.m.dev) && MissingIfEmpty(start, r.m, h, at, size)
  {
    assert Misses(r.m, h, at);
  }

  lemma BytesLeaveGap(start: Dev, m: MtpState, r: ReadResult, h: Handle, at: nat, ask: nat, used: nat,
                      size: nat)
    requires |start.log| <= |m.dev.log| < |r.m.dev.log| && m.dev.log <= r.m.dev.log && at + ask <= size
    requires r.bytes.Some? && used <= |r.bytes.value|
    requires EndsEmpty(m.dev, r.m.dev) ==> |r.bytes.value| < ask
    ensures MissingIfEmpty(start, r.m.(cache := Some(ReadCache(h, at, r.bytes.value))), h, at + used, size)
  {
    var m' := r.m.(cache := Some(ReadCache(h, at, r.bytes.value)));
    assert Misses(m', h, at + |r.bytes.value|);
  }

  lemma {:induction false} ReadLoopLeaves(start: Dev, m: MtpState, h: Handle, offset: nat, want: nat,
                                          out: seq<Byte>)
    requires CacheHolds(m) && Askable(m, h, offset, want) && |out| <= want
    requires out == m.dev.store.objects[h].data[offset..offset + |out|]
    requires MissingIfEmpty(start, m, h, offset + |out|, |m.dev.store.objects[h].data|)
    ensures var size := |m.dev.store.objects[h].data|;
      ReadLeaves(start, ReadLoop(m, h, offset, want, size, out), h, offset, want, size)
    decreases want - |out|, 1
  {
    hide Backend.Hit, Backend.ReadFromDevice, CacheHolds, Fits, MissingIfEmpty, EndsEmpty;
    var size := |m.dev.store.objects[h].data|;
    if |out| < want {
      var hit := Hit(m, h, offset + |out|, want - |out|);
      if hit.Some? {
        HitExtends(m, h, offset, want, out);
        HitKeepsGap(start, m, h, offset + |out|, want - |out|, size);
        ReadLoopLeaves(start, m, h, offset, want, out + hit.value);
      } else {
        MissLeaves(start, m, h, offset, want, out);
      }
    }
  }

  lemma {:induction false} MissLeaves(start: Dev, m: MtpState, h: Handle, offset: nat, want: nat,
                                      out: seq<Byte>)
    requires CacheHolds(m) && Askable(m, h, offset, want) && |out| < want
    requires out == m.dev.store.objects[h].data[offset..offset + |out|]
    requires MissingIfEmpty(start, m, h, offset + |out|, |m.dev.store.objects[h].data|)
    requires Hit(m, h, offset + |out|, want - |out|).None?
    ensures var size := |m.dev.store.objects[h].data|;
      ReadLeaves(start, ReadLoop(m, h, offset, want, size, out), h, offset, want, size)
    decreases want - |out|, 0
  {
    hide Backend.ReadFromDevice, Backend.Hit, CacheHolds, GivesPrefix, EndsEmpty, Reads, Gap;
    RangeFits(m, h, offset, want, out);
    var size := |m.dev.store.objects[h].data|;
    var at := offset + |out|;
    var ask := Min(Max(want - |out|, READ_AHEAD), size - at);
    ReadFromDeviceIsPrefix(m, h, at, ask);
    var r := ReadFromDevice(m, h, at, ask, size);
    RequestEnds(m, h, at, ask, size);
    MissExtends(m, h, offset, want, out, ask, r);
    PrefixOnlyDev(m, r, h, at, ask);
    if r.bytes.Some? && r.bytes.value == [] {
      EmptyLeavesGap(start, m, r, h, at, want - |out|, size);
    } else if r.bytes.Some? {
      var used := Min(want - |out|, |r.bytes.value|);
      BytesLeaveGap(start, m, r, h, at, ask, used, size);
      ReadLoopLeaves(start, r.m.(cache := Some(ReadCache(h, at, r.bytes.value))), h, offset, want,
                     out + r.bytes.value[..used]);
    }
  }

  /** The range of the next request fits its parameters. */
  lemma RangeFits(m: MtpState, h: Handle, offset: nat, want: nat, out: seq<Byte>)
    requires Askable(m, h, offset, want) && |out| < want
    ensures var at := offset + |out|; var ask := Min(Max(want - |out|, READ_AHEAD), |m.dev.store.objects[h].data| - at);
      ask > 0 && Askable(m, h, at, ask)
  {
  }

  lemma PrefixOnlyDev(m: MtpState, r: ReadResult, h: Handle, offset: nat, want: nat)
    requires Askable(m, h, offset, want) && GivesPrefix(m, r, h, offset, want)
    ensures r.m == m.(dev := r.m.dev)
  {
  }

  lemma ReadLeavesGap(start: Dev, w: World, h: Handle, at: nat, want: nat)
    requires BaseOk(w) && h in w.m.dev.store.objects && at < |w.m.dev.store.objects[h].data| && 0 < want < 0x1_0000_0000
    requires MissingIfEmpty(start, w.m, h, at, |w.m.dev.store.objects[h].data|)
    ensures var size := |w.m.dev.store.objects[h].data|; var r := ReadAt(w.m, h, at, want, size);
      ReadLeaves(start, r, h, at, Min(want, size - at), size)
  {
    hide MissingIfEmpty, Backend.ReadLoop, ReadLeaves;
    ReadLoopLeaves(start, w.m, h, at, Min(want, |w.m.dev.store.objects[h].data| - at), []);
  }

  // ----- the copy -----

  lemma {:induction false} CopyLoopEnds(start: Dev, w: World, h: Handle, spool: nat, at: nat)
    requires BaseOk(w) && h in w.m.dev.store.objects && at <= |w.m.dev.store.objects[h].data|
    requires MissingIfEmpty(start, w.m, h, at, |w.m.dev.store.objects[h].data|)
    ensures var data := w.m.dev.store.objects[h].data; var c := CopyLoop(w, h, |data|, spool, at);
      c.size.Some? ==> (c.size.value == |data| <==> !EndsEmpty(start, c.w.m.dev))
    decreases |w.m.dev.store.objects[h].data| - at
  {
    hide Backend.ReadAt, BaseOk, Quiet, EndsEmpty, Host.Append;
    var size := |w.m.dev.store.objects[h].data|;
    if at < size {
      CopyTurn(w, h, at);
      var want := Min(READ_CHUNK, size - at);
      ReadLeavesGap(start, w, h, at, want);
      var r := ReadAt(w.m, h, at, want, size);
      var w1 := w.(m := r.m);
      if r.bytes.Some? && r.bytes.value != [] {
        var put := Host.Append(w1.host, spool, r.bytes.value);
        var w2 := w1.(host := put.h);
        QuietIsOk(w, w1);
        HostAsideOk(w1, w2);
        if put.ok {
          CopyLoopEnds(start, w2, h, spool, at + |r.bytes.value|);
        }
      }
    }
  }

  /** The copy law. An adoption that keeps the old bytes keeps all of them exactly when the last
      request it made, if it made one, was not answered with no bytes. */
  lemma AdoptIsWholeIff(w: World, path: string, h: Handle, entry: Entry)
    requires BaseOk(w) && path !in w.pending && Known(w, h, entry)
    requires AdoptForWrite(w, path, h, entry, true).rc == 0
    ensures var o := AdoptForWrite(w, path, h, entry, true);
      && path in o.w.pending
      && (Host.Contents(o.w.host, o.w.pending[path].spool) == w.m.dev.store.objects[h].data
          <==> !EndsEmpty(w.m.dev, o.w.m.dev))
  {
    if entry.size > 0 {
      AdoptNowIsWholeIff(w.(host := Host.Used(w.host)), path, h, entry);
    } else {
      AdoptNowIsWholeIff(w, path, h, entry);
    }
    hide AdoptNow;
  }

  lemma AdoptNowIsWholeIff(w: World, path: string, h: Handle, entry: Entry)
    requires path !in w.pending && Known(w, h, entry)
    ensures var o := AdoptNow(w, path, h, entry, true);
      BaseOk(w) && o.rc == 0 ==>
        && path in o.w.pending
        && (Host.Contents(o.w.host, o.w.pending[path].spool) == w.m.dev.store.objects[h].data
            <==> !EndsEmpty(w.m.dev, o.w.m.dev))
  {
    if BaseOk(w) {
      hide CopyLoop, BaseOk, Copies, MissingIfEmpty;
      var made := Host.MakeSpool(w.host);
      var w1 := w.(host := made.h);
      var data := w.m.dev.store.objects[h].data;
      HostAsideOk(w, w1);
      if made.id.Some? {
        StartsWithNone(w1.m, h, |data|);
        CopyLoopEnds(w.m.dev, w1, h, made.id.value, 0);
        AdoptCopies(w1, h, entry, true, made.id.value);
        var c := if entry.size > 0 then CopyLoop(w1, h, entry.size, made.id.value, 0) else Copied(w1, Some(0));
        if c.size.Some? {
          CopiedPrefix(w1, c, made.id.value, data);
        }
      }
    }
  }

  lemma StartsWithNone(m: MtpState, h: Handle, size: nat)
    ensures MissingIfEmpty(m.dev, m, h, 0, size)
  {
  }

  lemma CopiedPrefix(w: World, c: Copied, spool: nat, data: seq<Byte>)
    requires Copies(w, c, spool, data) && c.size.Some?
    ensures Host.Contents(c.w.host, spool) == data <==> c.size.value == |data|
  {
    assert data[..|data|] == data;
  }

  // ----- a file lost to an empty answer -----

  /** A mount that holds one file of one byte, on a phone that answers the read of it with no
      bytes and does everything else. */
  ghost predicate EmptyAnswer(w: World) {
    && w.m.dev.store == Store(map[1 := Object(ROOT, "a", false, [7])], [1], 2) && w.tree == OneFileTree(1)
    && w.m.cache.None? && w.m.packet == 512 && w.m.wide
    && |w.m.dev.script| == 6 && w.m.dev.script[0].take == 0
    && (forall i :: 0 <= i < 6 ==> w.m.dev.script[i].verdict.Done?)
    && w.pending == map[] && w.host.files == map[] && w.host.count == 0
    && |w.host.script| == 3 && w.host.script[0].free.None? && w.host.script[1].ok && w.host.script[2].ok
  }

  lemma EmptyCopy(w: World)
    requires EmptyAnswer(w)
    ensures var o := AdoptForWrite(w, "/a", 1, Entry(1, ROOT, "a", false, 1), true);
      && o.rc == 0 && o.w.pending == map["/a" := NewPending(ROOT, "a", 0, 0, Some(1))]
      && o.w.host.files == map[0 := []] && o.w.host.script == w.host.script[2..]
      && o.w.m.dev.store == w.m.dev.store && o.w.m.dev.script == w.m.dev.script[1..]
  {
    var w1 := w.(host := Host.MakeSpool(Host.Used(w.host)).h);
    assert SplitFinalRead(0, 1, 1, 512) == (1, false);
    var r := ReadAt(w.m, 1, 0, 1, 1);
    assert r.bytes == Some([]) && r.m == w.m.(dev := r.m.dev);
    assert r.m.dev.store == w.m.dev.store && r.m.dev.script == w.m.dev.script[1..];
    assert w1.host.files == map[0 := []];
    hide ReadLoop;
    assert CopyLoop(w1, 1, 1, 0, 0) == Copied(w1.(m := r.m), Some(0));
  }

  /** The file is opened for writing, and flushed as it is. Both calls answer 0, and the phone
      then holds an empty file in its place; the old one is gone. */
  lemma EmptyAnswerLosesFile(w: World)
    requires EmptyAnswer(w)
    ensures var r := Open(w, "/a", Some(1)); var fh := 1 + FH_WRITER;
      var f := Flush(r.w, "/a", Some(fh));
      && r.rc == 0 && r.fh == Some(fh) && f.rc == 0
      && f.w.m.dev.store.objects == map[2 := Object(ROOT, "a", false, [])]
  {
    hide Resolve, SendPending;
    FindsOneFile(w, 1);
    EmptyCopy(w);
    var w0 := AdoptForWrite(w, "/a", 1, Entry(1, ROOT, "a", false, 1), true).w;
    hide AdoptForWrite;
    MarkAndHandle(1);
    AsTold.Replaces(Without(w0, "/a"), [7], []);
  }
}
