/** When a truncate of a closed file leaves an entry behind, from what is known before it.
    `crates/mtpfs/src/main.rs`, lines 729 to 811 and 1331 to 1360. */
module TruncateLeft {
  import opened Bytes
  import opened Wrappers
  import opened PathTree
  import opened Device
  import opened Backend
  import opened World
  import opened Index
  import opened Upkeep
  import opened Callbacks
  import opened Walks
  import Host

  /** The disk does the call that is `k` calls away. */
  predicate DiskGoes(h: Host.HostState, k: nat) {
    k < |h.script| && h.script[k].ok
  }

  predicate DiskGoesOn(h: Host.HostState, k: nat, n: nat) {
    forall i :: k <= i < k + n ==> DiskGoes(h, i)
  }

  /** A disk some calls later. */
  predicate DiskLater(h: Host.HostState, h': Host.HostState, n: nat) {
    n <= |h.script| && h'.script == h.script[n..]
  }

  /** How many pieces the copy of an object takes; none when a read of it faults. */
  function Pieces(m: MtpState, h: Handle, size: nat, at: nat): Option<nat>
    decreases size - at
  {
    if at >= size then Some(0)
    else
      var r := ReadAt(m, h, at, Min(READ_CHUNK, size - at), size);
      if r.bytes.None? then None
      else if r.bytes.value == [] then Some(0)
      else
        match Pieces(r.m, h, size, at + |r.bytes.value|)
        case None => None
        case Some(n) => Some(n + 1)
  }

  lemma {:induction false} CopyGoesIff(w: World, h: Handle, size: nat, spool: nat, at: nat)
    ensures var c := CopyLoop(w, h, size, spool, at); var n := Pieces(w.m, h, size, at);
      && (c.size.Some? <==> n.Some? && DiskGoesOn(w.host, 0, n.value))
      && (c.size.Some? ==> DiskLater(w.host, c.w.host, n.value))
    decreases size - at
  {
    hide ReadAt;
    if at < size {
      var r := ReadAt(w.m, h, at, Min(READ_CHUNK, size - at), size);
      if r.bytes.Some? && r.bytes.value != [] {
        var put := Host.Append(w.host, spool, r.bytes.value);
        var w2 := w.(m := r.m, host := put.h);
        if put.ok {
          CopyGoesIff(w2, h, size, spool, at + |r.bytes.value|);
          var more := Pieces(r.m, h, size, at + |r.bytes.value|);
          if more.Some? {
            OneCallLater(w.host, put.h, more.value);
          }
        } else {
          assert !DiskGoes(w.host, 0);
        }
      }
    }
  }

  lemma OneCallLater(h: Host.HostState, h': Host.HostState, n: nat)
    requires DiskGoes(h, 0) && h'.script == h.script[1..]
    ensures DiskGoesOn(h, 0, n + 1) <==> DiskGoesOn(h', 0, n)
    ensures forall h'' :: DiskLater(h', h'', n) ==> DiskLater(h, h'', n + 1)
  {
    forall i | 0 <= i < n
      ensures DiskGoes(h', i) <==> DiskGoes(h, i + 1)
    {
    }
    if DiskGoesOn(h', 0, n) {
      forall i | 0 <= i < n + 1
        ensures DiskGoes(h, i)
      {
        assert i > 0 ==> DiskGoes(h', i - 1);
      }
    }
    if DiskGoesOn(h, 0, n + 1) {
      forall i | 0 <= i < n
        ensures DiskGoes(h', i)
      {
        assert DiskGoes(h, i + 1);
      }
    }
  }

  // ----- an adoption -----

  /** The adoption asks for the room of the spool folder first, when the old bytes are wanted. */
  function AskFirst(entry: Entry, keep: bool): nat {
    if keep && entry.size > 0 then 1 else 0
  }

  function Wanted(w: World, h: Handle, entry: Entry, keep: bool): Option<nat> {
    if keep && entry.size > 0 then Pieces(w.m, h, entry.size, 0) else Some(0)
  }

  /** There is room for the old bytes, the spool file is made, no read of the object faults, and
      the disk takes every piece. */
  predicate SpoolGoes(w: World, h: Handle, entry: Entry, keep: bool) {
    var first := AskFirst(entry, keep);
    var n := Wanted(w, h, entry, keep);
    && (first == 1 ==> var free := Host.Now(w.host).free; free.None? || entry.size <= free.value)
    && DiskGoes(w.host, first) && n.Some? && DiskGoesOn(w.host, first + 1, n.value)
  }

  /** How many calls on the disk a working adoption makes. */
  function SpoolCalls(w: World, h: Handle, entry: Entry, keep: bool): nat {
    AskFirst(entry, keep) + 1 + (if Wanted(w, h, entry, keep).Some? then Wanted(w, h, entry, keep).value else 0)
  }

  lemma AdoptNowGoesIff(w: World, path: string, h: Handle, entry: Entry, keep: bool)
    requires path !in w.pending
    ensures var o := AdoptNow(w, path, h, entry, keep); var n := Wanted(w, h, entry, keep);
      && (o.rc == 0 <==> DiskGoes(w.host, 0) && n.Some? && DiskGoesOn(w.host, 1, n.value))
      && (o.rc == 0 ==> DiskLater(w.host, o.w.host, n.value + 1))
  {
    hide CopyLoop, Pieces, DiskGoesOn;
    var made := Host.MakeSpool(w.host);
    var w1 := w.(host := made.h);
    var n := Wanted(w, h, entry, keep);
    if made.id.Some? {
      CopyGoesIff(w1, h, entry.size, made.id.value, 0);
      CopyKeepsRest(w1, h, entry.size, made.id.value, 0);
      if n.Some? {
        OneCallMore(w.host, w1.host, 0, n.value);
      }
      NoPieces(w1.host);
    }
  }

  lemma NoPieces(h: Host.HostState)
    ensures DiskGoesOn(h, 0, 0) && DiskLater(h, h, 0)
  {
  }

  /** The calls after one more call, counted from before it. */
  lemma OneCallMore(h: Host.HostState, h': Host.HostState, k: nat, n: nat)
    requires h.script != [] && h'.script == h.script[1..]
    ensures DiskGoes(h', k) <==> DiskGoes(h, k + 1)
    ensures DiskGoesOn(h', k, n) <==> DiskGoesOn(h, k + 1, n)
    ensures forall h'', j: nat :: DiskLater(h', h'', j) ==> DiskLater(h, h'', j + 1)
  {
    if DiskGoesOn(h', k, n) {
      forall i | k + 1 <= i < k + 1 + n
        ensures DiskGoes(h, i)
      {
        assert DiskGoes(h', i - 1);
      }
    }
    if DiskGoesOn(h, k + 1, n) {
      forall i | k <= i < k + n
        ensures DiskGoes(h', i)
      {
        assert DiskGoes(h, i + 1);
      }
    }
  }

  lemma AdoptGoesIff(w: World, path: string, h: Handle, entry: Entry, keep: bool)
    requires path !in w.pending
    ensures var o := AdoptForWrite(w, path, h, entry, keep);
      && (o.rc == 0 <==> SpoolGoes(w, h, entry, keep))
      && (o.rc == 0 ==> DiskLater(w.host, o.w.host, SpoolCalls(w, h, entry, keep)))
  {
    hide AdoptNow, Pieces, DiskGoesOn, DiskLater, DiskGoes;
    var w1 := w.(host := Host.Used(w.host));
    AdoptNowGoesIff(w, path, h, entry, keep);
    AdoptNowGoesIff(w1, path, h, entry, keep);
    if w.host.script != [] {
      OneCallMore(w.host, w1.host, 0, 0);
      if Wanted(w, h, entry, keep).Some? {
        OneCallMore(w.host, w1.host, 1, Wanted(w, h, entry, keep).value);
      }
    } else {
      NoCalls(w.host, w1.host);
    }
  }

  lemma NoCalls(h: Host.HostState, h': Host.HostState)
    requires h.script == [] && h'.script == []
    ensures !DiskGoes(h, 0) && !DiskGoes(h, 1) && !DiskGoes(h', 0)
  {
  }

  // ----- the truncate -----

  /** The handle a path gives is a file's. */
  predicate NamesFile(w: World, path: string) {
    var h := Resolve(w, path).h;
    h.Some? && h.value in w.m.dev.store.objects && !w.m.dev.store.objects[h.value].isDir
  }

  lemma AdoptionIsOfFile(w: World, path: string, size: nat)
    requires BaseOk(w)
    ensures var f := Resolve(w, path); var a := Adoption(w, path, size);
      && f.w.pending == w.pending && f.w.host == w.host
      && (a.Some? <==> NamesFile(w, path))
      && (a.Some? ==>
            f.h.value in w.m.dev.store.objects
            && a.value == AdoptForWrite(f.w, path, f.h.value, EntryOf(w.m.dev.store, f.h.value), size > 0))
  {
    ResolveKeeps(w, path);
    ResolvedEntry(w, path);
    RootEntry(w, Resolve(w, path).w);
    RootIsNoObject(w);
    hide Resolve, Walk, AdoptForWrite, BaseOk, Quiet, LookupFrom;
  }

  /** A truncate of a closed file leaves an entry behind exactly when the path names a file, its
      spool is made and filled, and the disk refuses the one call after that. */
  lemma TruncateLeavesEntryIff(w: World, path: string, size: nat)
    requires Good(w) && path !in w.pending
    ensures path in TruncateClosed(w, path, size).w.pending <==>
      NamesFile(w, path)
      && var f := Resolve(w, path); var entry := EntryOf(w.m.dev.store, f.h.value);
         && SpoolGoes(f.w, f.h.value, entry, size > 0)
         && !DiskGoes(w.host, SpoolCalls(f.w, f.h.value, entry, size > 0))
  {
    AdoptedLeavesEntryIff(w, path, size);
    AdoptionAdopts(w, path, size);
    AdoptionIsOfFile(w, path, size);
    hide Adoption, TruncateClosed, Resolve, Good, AdoptForWrite, SpoolGoes, SpoolCalls, NamesFile,
         DiskGoes, Host.SetLen;
    var a := Adoption(w, path, size);
    if a.Some? {
      var f := Resolve(w, path);
      var entry := EntryOf(w.m.dev.store, f.h.value);
      AdoptGoesIff(f.w, path, f.h.value, entry, size > 0);
      if a.value.rc == 0 {
        NextCall(w.host, a.value.w.host, SpoolCalls(f.w, f.h.value, entry, size > 0),
                 a.value.w.pending[path].spool, size);
      }
    }
  }

  lemma NextCall(h: Host.HostState, h': Host.HostState, n: nat, spool: nat, size: nat)
    requires DiskLater(h, h', n)
    ensures Host.SetLen(h', spool, size).ok <==> DiskGoes(h, n)
  {
  }

  /** The file "/a" is cut to nothing while no program holds it open, and the disk refuses the
      size of the new spool: the answer is EIO, and the file counts as open for writing from
      then on, with no program to close it. */
  lemma TruncateLeavesEntry(w: World)
    requires w.m.dev.store == Store(map[1 := Object(ROOT, "a", false, [7])], [1], 2)
    requires w.tree == OneFileTree(1)
    requires w.pending == map[] && w.host.files == map[] && w.host.count == 0
    requires |w.host.script| == 2 && w.host.script[0].ok && !w.host.script[1].ok
    ensures var o := Truncate(w, "/a", 0);
      && o.rc == -EIO && o.w.m == w.m
      && o.w.pending == map["/a" := NewPending(ROOT, "a", 0, 0, Some(1))] && o.w.host.files == map[0 := []]
  {
    FindsOneFile(w, 1);
    hide Resolve;
    var o := AdoptForWrite(w, "/a", 1, Entry(1, ROOT, "a", false, 1), false);
    assert o.rc == 0 && o.w == w.(host := o.w.host, pending := map["/a" := NewPending(ROOT, "a", 0, 0, Some(1))]);
    assert !Host.SetLen(o.w.host, 0, 0).ok;
  }
}
