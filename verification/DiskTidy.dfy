/** The spool files on the host's disk over whole runs: which call leaves one behind.
    `crates/mtpfs/src/main.rs`, lines 64 to 149, 720 to 811 and 1289 to 1361. */
module DiskTidy {
  import opened Bytes
  import opened Wrappers
  import opened PathTree
  import opened Device
  import opened Backend
  import opened World
  import opened Index
  import opened Upkeep
  import opened Callbacks
  import opened RenameIndex
  import opened TruncateLeft
  import opened Walks
  import opened Runs
  import opened RunLaws
  import Mount = World
  import SwapSafety
  import Host

  // ----- files that no entry holds -----

  function Spools(w: World): set<nat> {
    set q | q in w.pending :: w.pending[q].spool
  }

  /** The spool files that belong to no entry. */
  function Strays(w: World): set<nat> {
    w.host.files.Keys - Spools(w)
  }

  /** Every entry has its file, and every file a number that is given out. */
  ghost predicate Orderly(w: World) {
    Spools(w) <= w.host.files.Keys && forall k <- w.host.files :: k < w.host.count
  }

  /** What a stretch of calls leaves besides: these files. */
  ghost predicate Leaves(w: World, w': World, more: set<nat>) {
    && Orderly(w') && Strays(w') == Strays(w) + more
    && more !! Strays(w) && w.host.count <= w'.host.count
  }

  /** The same files, for the same spools. */
  ghost predicate SameFiles(w: World, w': World) {
    Spools(w') == Spools(w) && w'.host.files.Keys == w.host.files.Keys && w.host.count <= w'.host.count
  }

  lemma SameLeavesNone(w: World, w': World)
    requires Orderly(w) && SameFiles(w, w')
    ensures Leaves(w, w', {})
  {
    hide Spools;
  }

  lemma SamePending(w: World, w': World)
    requires w'.pending == w.pending && w'.host.files.Keys == w.host.files.Keys && w.host.count <= w'.host.count
    ensures SameFiles(w, w')
  {
  }

  lemma SameEntrySpool(w: World, w': World, path: string)
    requires path in w.pending && path in w'.pending && w'.pending[path].spool == w.pending[path].spool
    requires w'.pending == w.pending[path := w'.pending[path]]
    ensures Spools(w') == Spools(w)
  {
    assert forall q <- w.pending :: w'.pending[q].spool == w.pending[q].spool;
    assert forall q <- w'.pending :: w.pending[q].spool == w'.pending[q].spool;
  }

  // ----- an entry that goes, and one that comes -----

  /** An entry goes, and its file with it unless it must stay. */
  lemma EntryGoes(w: World, w': World, path: string, kept: bool)
    requires Orderly(w) && SpoolsApart(w) && path in w.pending && w'.pending == w.pending - {path}
    requires w'.host.files.Keys == w.host.files.Keys - (if kept then {} else {w.pending[path].spool})
    requires w.host.count <= w'.host.count
    ensures Leaves(w, w', if kept then {w.pending[path].spool} else {})
  {
    var spool := w.pending[path].spool;
    assert Spools(w') == Spools(w) - {spool} by {
      forall q | q in w'.pending
        ensures w'.pending[q].spool == w.pending[q].spool && w.pending[q].spool != spool
      {
      }
      forall k | k in Spools(w) - {spool}
        ensures k in Spools(w')
      {
        var q :| q in w.pending && w.pending[q].spool == k;
        assert q in w'.pending;
      }
    }
    assert spool in Spools(w);
    hide Spools;
  }

  /** A new entry with a new file. */
  lemma EntryComes(w: World, w': World, path: string)
    requires Orderly(w) && path !in w.pending && path in w'.pending
    requires w'.pending == w.pending[path := w'.pending[path]] && w'.pending[path].spool == w.host.count
    requires w'.host.files.Keys == w.host.files.Keys + {w.host.count} && w.host.count < w'.host.count
    ensures Leaves(w, w', {}) && (SpoolsApart(w) ==> SpoolsApart(w'))
  {
    assert Spools(w') == Spools(w) + {w.host.count} by {
      assert forall q <- w.pending :: q in w'.pending && w'.pending[q].spool == w.pending[q].spool;
      assert w'.pending[path].spool in Spools(w');
    }
    assert w.host.count !in w.host.files;
    assert forall q <- w.pending :: w.pending[q].spool in Spools(w);
  }

  lemma LeavesInTurn(a: World, b: World, c: World, m: set<nat>, n: set<nat>)
    requires Leaves(a, b, m) && Leaves(b, c, n)
    ensures Leaves(a, c, m + n) && m !! n
  {
    hide Orderly, Spools;
  }

  // ----- adoptions -----

  /** The spool file is made, and then the copy into it faults. */
  predicate SpoolLeaks(w: World, h: Handle, entry: Entry, keep: bool) {
    var first := AskFirst(entry, keep);
    && (first == 1 ==> var free := Host.Now(w.host).free; free.None? || entry.size <= free.value)
    && DiskGoes(w.host, first) && !SpoolGoes(w, h, entry, keep)
  }

  function Number(w: World, leaks: bool): set<nat> {
    if leaks then {w.host.count} else {}
  }

  lemma AdoptLeaves(w: World, path: string, h: Handle, entry: Entry, keep: bool)
    requires Orderly(w) && path !in w.pending
    ensures var o := AdoptForWrite(w, path, h, entry, keep);
      && Leaves(w, o.w, Number(w, SpoolLeaks(w, h, entry, keep)))
      && (SpoolsApart(w) ==> SpoolsApart(o.w))
      && (o.rc == 0 ==> path in o.w.pending && o.w.pending[path].spool == w.host.count
                        && !o.w.pending[path].keepSpool)
      && (o.rc != 0 ==> o.w.pending == w.pending)
  {
    AdoptGoesIff(w, path, h, entry, keep);
    AdoptFiles(w, path, h, entry, keep);
    var o := AdoptForWrite(w, path, h, entry, keep);
    hide AdoptForWrite, SpoolGoes, Wanted, DiskGoes;
    if o.rc == 0 {
      EntryComes(w, o.w, path);
    } else if SpoolLeaks(w, h, entry, keep) {
      StrayComes(w, o.w);
    } else {
      SamePending(w, o.w);
      SameLeavesNone(w, o.w);
    }
  }

  lemma StrayComes(w: World, w': World)
    requires Orderly(w) && w'.pending == w.pending && w.host.count < w'.host.count
    requires w'.host.files.Keys == w.host.files.Keys + {w.host.count}
    ensures Leaves(w, w', {w.host.count})
  {
    assert Spools(w') == Spools(w);
    assert w.host.count !in w.host.files;
  }

  /** What an adoption makes of the map and of the files. */
  lemma AdoptFiles(w: World, path: string, h: Handle, entry: Entry, keep: bool)
    requires path !in w.pending
    ensures var o := AdoptForWrite(w, path, h, entry, keep); var n := w.host.count;
      && w.host.count <= o.w.host.count
      && (o.rc == 0 || SpoolLeaks(w, h, entry, keep) ==>
            o.w.host.files.Keys == w.host.files.Keys + {n} && n < o.w.host.count)
      && (o.rc != 0 && !SpoolLeaks(w, h, entry, keep) ==> o.w.host.files.Keys == w.host.files.Keys)
      && (o.rc != 0 ==> o.w.pending == w.pending)
      && (o.rc == 0 ==>
            && path in o.w.pending && o.w.pending == w.pending[path := o.w.pending[path]]
            && o.w.pending[path].spool == n && !o.w.pending[path].keepSpool)
  {
    AdoptGoesIff(w, path, h, entry, keep);
    var w0 := if keep && entry.size > 0 then w.(host := Host.Used(w.host)) else w;
    var made := Host.MakeSpool(w0.host);
    CopyKeepsRest(w0.(host := made.h), h, entry.size, w.host.count, 0);
    MadeIff(w.host, made, AskFirst(entry, keep), w0.host);
    hide CopyLoop, SpoolGoes, DiskGoes, Wanted;
  }

  lemma MadeIff(h: Host.HostState, made: Host.Made, first: nat, h0: Host.HostState)
    requires first <= 1 && h0 == (if first == 1 then Host.Used(h) else h) && made == Host.MakeSpool(h0)
    ensures made.id.Some? <==> DiskGoes(h, first)
    ensures made.id.Some? ==> made.id.value == h.count && made.h.files.Keys == h.files.Keys + {h.count}
    ensures made.id.None? ==> made.h.files == h.files
    ensures made.h.count == h.count + 1
  {
  }

  // ----- sends -----

  lemma SendCounts(w: World, p: Pending)
    ensures w.host.count <= SendPending(w, p).w.host.count
  {
    hide SendObjectStream, DeleteObject, RenameObject, AsideName, Device.Storage, OldSize, FreeSpace;
  }

  /** An entry is sent, and dropped. */
  lemma SentLeaves(w: World, path: string)
    requires Orderly(w) && SpoolsApart(w) && path in w.pending
    ensures var p := w.pending[path]; var s := SendPending(Without(w, path), p);
      Leaves(w, s.w.(host := Dropped(s.w.host, s.p)), if s.p.keepSpool then {p.spool} else {})
  {
    var p := w.pending[path];
    var s := SendPending(Without(w, path), p);
    SendKeepsPending(Without(w, path), p);
    SwapSafety.HostKeepsFiles(Without(w, path), p);
    SendCounts(Without(w, path), p);
    hide SendPending;
    EntryGoes(w, s.w.(host := Dropped(s.w.host, s.p)), path, s.p.keepSpool);
  }

  // ----- paths -----

  lemma {:induction false} ResolveLoopAside(w: World, parts: seq<string>, rounds: nat)
    ensures var r := ResolveLoop(w, parts, rounds).w;
      r.host == w.host && r.pending == w.pending
    decreases rounds
  {
    hide LookupFrom, Device.List;
    if rounds > 0 {
      match LookupFrom(w.tree, ROOT, parts)
      case Found(_) =>
      case NotFound =>
      case NeedListing(folder) =>
        ResolveLoopAside(Listed(w, Device.List(w.m.dev, folder), folder), parts, rounds - 1);
    }
  }

  lemma ResolveAside(w: World, path: string)
    ensures Resolve(w, path).w.host == w.host && Resolve(w, path).w.pending == w.pending
  {
    ResolveLoopAside(w, Split(path), MAX_WALK);
    hide ResolveLoop;
  }

  // ----- call by call -----

  /** An adoption of the object the path names, and whether its spool file is left behind. */
  predicate PathLeaks(w: World, path: string, keep: bool) {
    && path !in w.pending && NamesFile(w, path)
    && var f := Resolve(w, path);
       SpoolLeaks(f.w, f.h.value, EntryOf(w.m.dev.store, f.h.value), keep)
  }

  /** The call leaves the spool file of an adoption that faults. */
  predicate Leaks(d: Desk, c: FsCall) {
    match c
    case OpenFile(id, path, flags) => FlagWrites(flags) && PathLeaks(d.w, path, !FlagTruncates(flags))
    case TruncatePath(path, size) => PathLeaks(d.w, path, size > 0)
    case _ => false
  }

  /** The entry of a path as its writer's release leaves it. */
  function Released(w: World, path: string): Pending
    requires path in w.pending
  {
    var p := w.pending[path];
    if p.sent.Some? then p else SendPending(Without(w, path), p).p
  }

  /** A truncate of a closed file sends the file it adopted, and the send says that the spool
      must stay. */
  predicate TruncateMarks(w: World, path: string, size: nat) {
    match Adoption(w, path, size)
    case None => false
    case Some(o) =>
      o.rc == 0 && path in o.w.pending
      && var cut := TruncateOpen(o.w, path, size);
         cut.rc == 0 && path in cut.w.pending && SendPending(Without(cut.w, path), cut.w.pending[path]).p.keepSpool
  }

  /** The files a call leaves because they hold the only copy. */
  function MarkedBy(d: Desk, c: FsCall): set<nat> {
    match c
    case CreateFile(id, path) =>
      if Create(d.w, path, Some(0)).rc == 0 && path in d.w.pending && d.w.pending[path].keepSpool
      then {d.w.pending[path].spool} else {}
    case ReleaseFile(id) =>
      if id in d.open && IsWriter(d.open[id]) && d.open[id].path in d.w.pending
         && Released(d.w, d.open[id].path).keepSpool
      then {d.w.pending[d.open[id].path].spool} else {}
    case TruncatePath(path, size) =>
      Number(d.w, path !in d.w.pending && TruncateMarks(d.w, path, size))
    case _ => {}
  }

  lemma OpenLeaves(w: World, path: string, flags: nat)
    requires Good(w) && Orderly(w)
    ensures Leaves(w, Open(w, path, Some(flags)).w,
                   Number(w, FlagWrites(flags) && PathLeaks(w, path, !FlagTruncates(flags))))
  {
    ResolveAside(w, path);
    ResolvedEntry(w, path);
    OnlyFilesAdopt(w, path);
    var f := Resolve(w, path);
    hide Resolve, FlagWrites, FlagTruncates, SpoolLeaks, BaseOk, Orderly, AdoptForWrite;
    SamePending(w, f.w);
    SameLeavesNone(w, f.w);
    assert Orderly(f.w);
    if FlagWrites(flags) && path !in w.pending && NamesFile(w, path) {
      AdoptLeaves(f.w, path, f.h.value, EntryOf(w.m.dev.store, f.h.value), !FlagTruncates(flags));
      LaterLeaves(w, f.w, AdoptForWrite(f.w, path, f.h.value, EntryOf(w.m.dev.store, f.h.value), !FlagTruncates(flags)).w,
                  Number(w, PathLeaks(w, path, !FlagTruncates(flags))));
    }
  }

  lemma LaterLeaves(w: World, w1: World, w2: World, more: set<nat>)
    requires w1.pending == w.pending && w1.host == w.host && Leaves(w1, w2, more)
    ensures Leaves(w, w2, more)
  {
    assert Spools(w1) == Spools(w);
  }

  /** What an `open` adopts is a file. */
  lemma OnlyFilesAdopt(w: World, path: string)
    requires BaseOk(w)
    ensures var f := Resolve(w, path);
      f.h.Some? && EntryAt(f.w.tree, f.h.value).Some? && !EntryAt(f.w.tree, f.h.value).value.isDir ==> NamesFile(w, path)
  {
    ResolveKeeps(w, path);
    ResolvedEntry(w, path);
    var f := Resolve(w, path);
    if f.h == Some(ROOT) {
      RootEntry(w, f.w);
    }
    hide Resolve, BaseOk, Walk, LookupFrom;
  }

  lemma CreateLeaves(w: World, path: string)
    requires Orderly(w) && SpoolsApart(w)
    ensures Leaves(w, Create(w, path, Some(0)).w,
                   if Create(w, path, Some(0)).rc == 0 && path in w.pending && w.pending[path].keepSpool
                   then {w.pending[path].spool} else {})
  {
    CreateFiles(w, path);
    var r := Create(w, path, Some(0));
    hide Create, SpoolsApart, Orderly, Leaves;
    if r.rc != 0 {
      SamePending(w, r.w);
      SameLeavesNone(w, r.w);
    } else if path in w.pending {
      EntrySwaps(w, r.w, path);
    } else {
      EntryComes(w, r.w, path);
    }
  }

  /** A new entry pushes out an old one. */
  lemma EntrySwaps(w: World, w': World, path: string)
    requires Orderly(w) && SpoolsApart(w) && path in w.pending && path in w'.pending
    requires w'.pending == w.pending[path := w'.pending[path]] && w'.pending[path].spool == w.host.count
    requires w.host.count < w'.host.count
    requires w'.host.files.Keys == w.host.files.Keys + {w.host.count}
                                   - (if w.pending[path].keepSpool then {} else {w.pending[path].spool})
    ensures Leaves(w, w', if w.pending[path].keepSpool then {w.pending[path].spool} else {})
  {
    var p := w.pending[path];
    var mid := w.(pending := w.pending - {path}, host := Dropped(w.host, p));
    OldIsBelow(w, path);
    DroppedFiles(w.host, p);
    hide Spools, SpoolsApart, Leaves, Orderly, Dropped;
    var left := if p.keepSpool then {p.spool} else {};
    EntryGoes(w, mid, path, p.keepSpool);
    LeftIsOrderly(w, mid, left);
    assert w'.pending == mid.pending[path := w'.pending[path]];
    OneInOneOut(w.host.files.Keys, w.host.count, p.spool, p.keepSpool);
    EntryComes(mid, w', path);
    LeavesInTurn(w, mid, w', left, {});
    assert left + {} == left;
  }

  lemma DroppedFiles(h: Host.HostState, p: Pending)
    ensures Dropped(h, p).files.Keys == h.files.Keys - (if p.keepSpool then {} else {p.spool})
    ensures Dropped(h, p).count == h.count
  {
  }

  lemma OneInOneOut(files: set<nat>, n: nat, spool: nat, kept: bool)
    requires spool < n
    ensures var gone := if kept then {} else {spool}; files + {n} - gone == files - gone + {n}
  {
  }

  lemma OldIsBelow(w: World, path: string)
    requires Orderly(w) && path in w.pending
    ensures w.pending[path].spool < w.host.count
  {
    assert w.pending[path].spool in Spools(w);
  }

  /** What a create makes of the map and of the files. */
  lemma CreateFiles(w: World, path: string)
    ensures var r := Create(w, path, Some(0)); var n := w.host.count;
      && w.host.count <= r.w.host.count
      && (r.rc != 0 ==> r.w.pending == w.pending && r.w.host.files == w.host.files)
      && (r.rc == 0 ==>
            && path in r.w.pending && r.w.pending == w.pending[path := r.w.pending[path]]
            && r.w.pending[path].spool == n && n < r.w.host.count
            && r.w.host.files.Keys == w.host.files.Keys + {n}
                 - (if path in w.pending && !w.pending[path].keepSpool then {w.pending[path].spool} else {}))
  {
    ResolveAside(w, SplitParent(path).0);
    hide Resolve, SplitParent;
  }

  lemma WriteLeavesNone(w: World, path: string, bytes: seq<Byte>, offset: nat)
    requires Orderly(w) && path in w.pending
    ensures Leaves(w, Write(w, path, bytes, offset).w, {})
  {
    var w' := Write(w, path, bytes, offset).w;
    var spool := w.pending[path].spool;
    assert spool in Spools(w);
    Host.WriteLoopSplices(w.host, spool, offset, bytes);
    hide Host.WriteLoop, Host.Splice;
    SameEntrySpool(w, w', path);
    assert forall k :: k in w'.host.files <==> k in w.host.files;
    SameLeavesNone(w, w');
  }

  lemma ReadLeavesNone(w: World, path: string, want: nat, offset: nat, fi: Option<nat>)
    requires Orderly(w)
    ensures Leaves(w, Read(w, path, want, offset, fi).w, {})
  {
    ResolveAside(w, path);
    hide Resolve, ReadAt;
    SamePending(w, Read(w, path, want, offset, fi).w);
    SameLeavesNone(w, Read(w, path, want, offset, fi).w);
  }

  lemma FlushLeavesNone(w: World, path: string, fi: Option<nat>)
    requires Orderly(w)
    ensures Leaves(w, Flush(w, path, fi).w, {})
  {
    var w' := Flush(w, path, fi).w;
    if FhWrites(fi) && path in w.pending {
      SendKeepsPending(Without(w, path), w.pending[path]);
      SwapSafety.HostKeepsFiles(Without(w, path), w.pending[path]);
      SendCounts(Without(w, path), w.pending[path]);
      hide SendPending;
      SameEntrySpool(w, w', path);
    }
    SameLeavesNone(w, w');
  }

  lemma ReleaseLeaves(w: World, path: string, fi: Option<nat>)
    requires Orderly(w) && SpoolsApart(w)
    ensures Leaves(w, Release(w, path, fi).w,
                   if FhWrites(fi) && path in w.pending && Released(w, path).keepSpool
                   then {w.pending[path].spool} else {})
  {
    hide SendPending;
    if FhWrites(fi) && path in w.pending {
      if w.pending[path].sent.Some? {
        EntryGoes(w, Release(w, path, fi).w, path, w.pending[path].keepSpool);
      } else {
        SentLeaves(w, path);
      }
    } else {
      SameLeavesNone(w, w);
    }
  }

  lemma TruncateOpenLeavesNone(w: World, path: string, size: nat)
    requires Orderly(w) && path in w.pending
    ensures Leaves(w, TruncateOpen(w, path, size).w, {})
    ensures SpoolsApart(w) ==> SpoolsApart(TruncateOpen(w, path, size).w)
  {
    var w' := TruncateOpen(w, path, size).w;
    assert w.pending[path].spool in Spools(w);
    SameEntrySpool(w, w', path);
    SameLeavesNone(w, w');
  }

  lemma TruncateRestLeaves(w: World, o: Outcome, path: string, size: nat)
    requires Leaves(w, o.w, {}) && SpoolsApart(o.w) && o.rc == 0
    requires path in o.w.pending && o.w.pending[path].spool == w.host.count
    ensures var cut := TruncateOpen(o.w, path, size);
      Leaves(w, TruncateRest(o, path, size).w,
             Number(w, cut.rc == 0 && path in cut.w.pending
                       && SendPending(Without(cut.w, path), cut.w.pending[path]).p.keepSpool))
  {
    var cut := TruncateOpen(o.w, path, size);
    TruncateOpenLeavesNone(o.w, path, size);
    assert path in cut.w.pending && cut.w.pending[path].spool == w.host.count;
    hide TruncateOpen, SendPending, Leaves, SpoolsApart;
    LeavesInTurn(w, o.w, cut.w, {}, {});
    var none: set<nat> := {};
    assert none + none == none;
    if cut.rc == 0 {
      LeftIsOrderly(w, cut.w, {});
      SentLeaves(cut.w, path);
      var s := SendPending(Without(cut.w, path), cut.w.pending[path]);
      var left := Number(w, s.p.keepSpool);
      LeavesInTurn(w, cut.w, s.w.(host := Dropped(s.w.host, s.p)), {}, left);
      assert none + left == left;
    }
  }

  lemma LeftIsOrderly(w: World, w': World, more: set<nat>)
    requires Leaves(w, w', more)
    ensures Orderly(w')
  {
  }

  lemma TruncateClosedLeaves(w: World, path: string, size: nat)
    requires Good(w) && Orderly(w) && path !in w.pending
    ensures Leaves(w, TruncateClosed(w, path, size).w,
                   Number(w, PathLeaks(w, path, size > 0)) + Number(w, TruncateMarks(w, path, size)))
    ensures !(PathLeaks(w, path, size > 0) && TruncateMarks(w, path, size))
  {
    AdoptionIsOfFile(w, path, size);
    ResolveAside(w, path);
    var f := Resolve(w, path);
    var a := Adoption(w, path, size);
    TruncateIsRest(w, path, size);
    if a.Some? {
      var entry := EntryOf(w.m.dev.store, f.h.value);
      hide Resolve, Adoption, TruncateClosed, TruncateRest, SpoolLeaks, BaseOk, AdoptForWrite, Orderly,
           TruncateOpen,
           SendPending, Leaves;
      assert Orderly(f.w) by {
        SamePending(w, f.w);
        SameLeavesNone(w, f.w);
        LeftIsOrderly(w, f.w, {});
      }
      AdoptLeaves(f.w, path, f.h.value, entry, size > 0);
      LaterLeaves(w, f.w, a.value.w, Number(w, PathLeaks(w, path, size > 0)));
      LeakIsFault(f.w, path, f.h.value, entry, size > 0);
      if a.value.rc == 0 {
        TruncateRestLeaves(w, a.value, path, size);
      } else {
        RestOfFault(a.value, path, size);
      }
      EitherAlone(w, PathLeaks(w, path, size > 0), TruncateMarks(w, path, size));
    } else {
      hide Resolve, Orderly;
      SamePending(w, f.w);
      SameLeavesNone(w, f.w);
    }
  }

  lemma EitherAlone(w: World, a: bool, b: bool)
    ensures !a ==> Number(w, a) + Number(w, b) == Number(w, b)
    ensures !b ==> Number(w, a) + Number(w, b) == Number(w, a)
  {
  }

  lemma RestOfFault(o: Outcome, path: string, size: nat)
    requires o.rc != 0
    ensures TruncateRest(o, path, size).w == o.w
  {
  }

  lemma LeakIsFault(w: World, path: string, h: Handle, entry: Entry, keep: bool)
    requires path !in w.pending
    ensures SpoolLeaks(w, h, entry, keep) ==> AdoptForWrite(w, path, h, entry, keep).rc != 0
  {
    AdoptGoesIff(w, path, h, entry, keep);
    hide SpoolGoes, AdoptForWrite;
  }

  lemma TruncateIsRest(w: World, path: string, size: nat)
    ensures match Adoption(w, path, size)
      case None => TruncateClosed(w, path, size).w == Resolve(w, path).w
      case Some(o) => TruncateClosed(w, path, size) == TruncateRest(o, path, size)
  {
    hide Resolve, AdoptForWrite, TruncateOpen, SendPending;
  }

  // ----- calls that make no spool -----

  lemma PlanAside(w: World, from: string, to: string)
    ensures PlanRename(w, from, to).w.host == w.host && PlanRename(w, from, to).w.pending == w.pending
  {
    hide Resolve, SplitParent;
    var a := Resolve(w, from).w;
    var b := Resolve(a, SplitParent(from).0).w;
    var c := Resolve(b, SplitParent(to).0).w;
    ResolveAside(w, from);
    ResolveAside(a, SplitParent(from).0);
    ResolveAside(b, SplitParent(to).0);
    ResolveAside(c, to);
  }

  lemma CarryOutAside(w: World, plan: Plan)
    ensures var w' := CarryOut(w, plan).w;
      w'.pending == w.pending && w'.host.files == w.host.files && w.host.count <= w'.host.count
  {
    hide RenameObject, MoveObject, DeleteObject, AsideName;
  }

  lemma RenameLeavesNone(w: World, from: string, to: string)
    requires Orderly(w)
    ensures Leaves(w, Mount.Rename(w, from, to).w, {})
  {
    PlanAside(w, from, to);
    var pl := PlanRename(w, from, to);
    if pl.r.Success? {
      CarryOutAside(pl.w, pl.r.value);
    }
    hide PlanRename, CarryOut, Leaves, Orderly;
    SamePending(w, Mount.Rename(w, from, to).w);
    SameLeavesNone(w, Mount.Rename(w, from, to).w);
  }

  lemma FolderCallsAside(w: World, path: string, wantDir: bool)
    requires Orderly(w)
    ensures Leaves(w, RemovePath(w, path, wantDir).w, {}) && Leaves(w, Mkdir(w, path).w, {})
    ensures Leaves(w, ReadFolder(w, path).w, {})
  {
    ResolveAside(w, path);
    ResolveAside(w, SplitParent(path).0);
    hide Resolve, SplitParent, DeleteObject, MakeFolder, Device.List, Leaves, Orderly;
    SamePending(w, RemovePath(w, path, wantDir).w);
    SamePending(w, Mkdir(w, path).w);
    SamePending(w, ReadFolder(w, path).w);
    SameLeavesNone(w, RemovePath(w, path, wantDir).w);
    SameLeavesNone(w, Mkdir(w, path).w);
    SameLeavesNone(w, ReadFolder(w, path).w);
  }

  // ----- runs -----

  lemma OpenFileLeaksNone(w: World, path: string, keep: bool)
    requires path in w.pending
    ensures !PathLeaks(w, path, keep)
  {
  }

  function LeakedBy(d: Desk, c: FsCall): set<nat> {
    Number(d.w, Leaks(d, c))
  }

  /** What one call leaves: the spool of a faulted adoption, and a spool that must stay. */
  lemma StepLeaves(d: Desk, c: FsCall)
    requires Kept(d) && Legal(d, c) && Orderly(d.w)
    ensures Leaves(d.w, Step(d, c).w, LeakedBy(d, c) + MarkedBy(d, c)) && LeakedBy(d, c) !! MarkedBy(d, c)
  {
    hide Leaves, Orderly, BaseOk, PathLeaks, TruncateMarks, Released, Open, Create, Write, Mount.Read,
         Flush, Release,
         TruncateClosed, TruncateOpen, Mount.Rename, RemovePath, Mkdir, ReadFolder, FlagWrites, FlagTruncates, FhMarked,
         Tame, RenameStrands, WritersHeld;
    var none: set<nat> := {};
    match c {
      case OpenFile(id, path, flags) => OpenLeaves(d.w, path, flags);
      case CreateFile(id, path) => CreateLeaves(d.w, path);
      case WriteFile(id, bytes, offset) =>
        WriterIsHeld(d, id);
        WriteLeavesNone(d.w, d.open[id].path, bytes, offset);
      case ReadFile(id, want, offset) => ReadLeavesNone(d.w, d.open[id].path, want, offset, Some(d.open[id].fh));
      case FlushFile(id) => FlushLeavesNone(d.w, d.open[id].path, Some(d.open[id].fh));
      case ReleaseFile(id) => ReleaseLeaves(d.w, d.open[id].path, Some(d.open[id].fh));
      case TruncatePath(path, size) =>
        if path in d.w.pending {
          TruncateOpenLeavesNone(d.w, path, size);
          OpenFileLeaksNone(d.w, path, size > 0);
        } else {
          TruncateClosedLeaves(d.w, path, size);
        }
      case RenamePath(from, to) => RenameLeavesNone(d.w, from, to);
      case RemoveAt(path, wantDir) => FolderCallsAside(d.w, path, wantDir);
      case MakeFolderAt(path) => FolderCallsAside(d.w, path, true);
      case ListFolder(path) => FolderCallsAside(d.w, path, true);
    }
    assert none + none == none && LeakedBy(d, c) + none == LeakedBy(d, c) && none + MarkedBy(d, c) == MarkedBy(d, c);
  }

  function LeakedOver(d: Desk, calls: seq<FsCall>): set<nat>
    requires LegalRun(d, calls)
    decreases |calls|
  {
    if calls == [] then {} else LeakedBy(d, calls[0]) + LeakedOver(Step(d, calls[0]), calls[1..])
  }

  function MarkedOver(d: Desk, calls: seq<FsCall>): set<nat>
    requires LegalRun(d, calls)
    decreases |calls|
  {
    if calls == [] then {} else MarkedBy(d, calls[0]) + MarkedOver(Step(d, calls[0]), calls[1..])
  }

  /** Some adoption of the run faults after its spool file is made. */
  predicate SomeLeak(d: Desk, calls: seq<FsCall>)
    requires LegalRun(d, calls)
    decreases |calls|
  {
    calls != [] && (Leaks(d, calls[0]) || SomeLeak(Step(d, calls[0]), calls[1..]))
  }

  lemma {:induction false} LeakedIffSomeLeak(d: Desk, calls: seq<FsCall>)
    requires LegalRun(d, calls)
    ensures LeakedOver(d, calls) == {} <==> !SomeLeak(d, calls)
    decreases |calls|
  {
    hide Legal, Step, Leaks;
    if calls != [] {
      LeakedIffSomeLeak(Step(d, calls[0]), calls[1..]);
      assert Leaks(d, calls[0]) ==> d.w.host.count in LeakedOver(d, calls);
    }
  }

  /** Over any run, the files that belong to no entry are those of faulted adoptions, those that
      must stay, and those that were there before; and no file is two of these. */
  lemma {:induction false} RunLeaves(d: Desk, calls: seq<FsCall>)
    requires Kept(d) && LegalRun(d, calls) && Orderly(d.w)
    ensures Leaves(d.w, Run(d, calls).w, LeakedOver(d, calls) + MarkedOver(d, calls))
    ensures LeakedOver(d, calls) !! MarkedOver(d, calls)
    decreases |calls|
  {
    hide Kept, Legal, Step, LeakedBy, MarkedBy, Mirrors, Leaves, Orderly;
    if calls != [] {
      var d1 := Step(d, calls[0]);
      StepLeaves(d, calls[0]);
      StepKeeps(d, calls[0]);
      LeftIsOrderly(d.w, d1.w, LeakedBy(d, calls[0]) + MarkedBy(d, calls[0]));
      RunLeaves(d1, calls[1..]);
      var l, m := LeakedOver(d1, calls[1..]), MarkedOver(d1, calls[1..]);
      LeavesInTurn(d.w, d1.w, Run(d, calls).w, LeakedBy(d, calls[0]) + MarkedBy(d, calls[0]), l + m);
      assert LeakedBy(d, calls[0]) + MarkedBy(d, calls[0]) + (l + m) == LeakedOver(d, calls) + MarkedOver(d, calls);
    } else {
      var none: set<nat> := {};
      SameLeavesNone(d.w, d.w);
      assert none + none == none;
    }
  }

  /** A mount that starts with no spool file has, after any run, just the files of its entries
      and the ones that must stay, exactly when no adoption faulted after its file was made. */
  lemma DiskIsTidyIff(start: Desk, calls: seq<FsCall>)
    requires IsStart(start) && start.w.host.files == map[] && LegalRun(start, calls)
    ensures var w := Run(start, calls).w;
      w.host.files.Keys == Spools(w) + MarkedOver(start, calls) <==> !SomeLeak(start, calls)
  {
    StartIsKept(start);
    assert Orderly(start.w);
    RunLeaves(start, calls);
    LeakedIffSomeLeak(start, calls);
    hide Runs.Kept, IsStart, Legal, LeakedOver, MarkedOver, SomeLeak, Run, Mirrors, Spools;
    var w := Run(start, calls).w;
    assert Strays(start.w) == {};
    StraysAreRest(w, LeakedOver(start, calls), MarkedOver(start, calls));
  }

  lemma StraysAreRest(w: World, leaked: set<nat>, marked: set<nat>)
    requires Spools(w) <= w.host.files.Keys && Strays(w) == leaked + marked && leaked !! marked
    ensures w.host.files.Keys == Spools(w) + marked <==> leaked == {}
  {
    hide Spools;
    assert w.host.files.Keys == Spools(w) + (leaked + marked);
    if leaked == {} {
      assert leaked + marked == marked;
    } else {
      var k :| k in leaked;
      assert k in Strays(w);
      assert k !in Spools(w) + marked;
    }
  }

  /** The file "/a" of one byte is opened for writing, and the phone does not answer the read of
      it: the open answers EIO, and an empty spool file stays that no entry holds. */
  lemma SpoolFileStays(w: World)
    requires w.m.dev.store == Store(map[1 := Object(ROOT, "a", false, [7])], [1], 2) && w.tree == OneFileTree(1)
    requires w.m.cache.None? && w.m.dev.script == []
    requires w.pending == map[] && w.host.files == map[]
    requires |w.host.script| == 2 && w.host.script[0].free.None? && w.host.script[1].ok
    ensures var r := Open(w, "/a", Some(1));
      r.rc == -EIO && r.w.pending == map[] && r.w.host.files == map[w.host.count := []]
  {
    FindsOneFile(w, 1);
    hide Resolve;
    var made := Host.MakeSpool(Host.Used(w.host));
    var w1 := w.(host := made.h);
    assert made.id == Some(w.host.count);
    assert ReadAt(w1.m, 1, 0, 1, 1).bytes.None? by {
      assert ReadFromDevice(w1.m, 1, 0, 1, 1).bytes.None?;
    }
    hide ReadAt;
    assert CopyLoop(w1, 1, 1, w.host.count, 0).size.None?;
  }
}
