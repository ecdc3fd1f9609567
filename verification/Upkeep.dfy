/** What every callback of the mount keeps: the index, the cache, the spools, and the place of
    every file that is open for writing. `crates/mtpfs/src/main.rs`. */
module Upkeep {
  import opened Bytes
  import opened Wrappers
  import opened PathTree
  import opened Device
  import opened Backend
  import opened ReadAhead
  import opened World
  import opened Index
  import Host

  // ----- the session under one operation -----

  /** Every object is small enough for the partial read the session uses. */
  ghost predicate Readable(m: MtpState) {
    forall h <- m.dev.store.objects ::
      |m.dev.store.objects[h].data| <= (if m.wide then 0x1_0000_0000_0000_0000 else 0x1_0000_0000)
  }

  /** One session after another, with the folders whose children changed and the objects that
      moved in between. */
  ghost predicate Steps(m: MtpState, m': MtpState, touched: set<Handle>, moved: set<Handle>) {
    && Evolves(m.dev.store, m'.dev.store, touched, moved)
    && (CacheHolds(m) ==> CacheHolds(m'))
    && (Readable(m) ==> Readable(m'))
    && (Generous(m.dev) ==> Generous(m'.dev))
    && m'.packet == m.packet && m'.wide == m.wide && m'.canRename == m.canRename && m'.canMove == m.canMove
  }

  lemma RenameSteps(m: MtpState, h: Handle, name: string)
    requires WfStore(m.dev.store)
    ensures var t := RenameObject(m, h, name);
      Steps(m, t.m, if t.ok then FolderOf(m.dev.store, h) else {}, {})
  {
    RenameEvolves(m, h, name);
    var did := Device.Rename(m.dev, h, name);
    if CacheHolds(m) {
      ChangedKeepsCache(m, did.dev, did.verdict);
    }
    hide Evolves, CacheHolds;
  }

  lemma MoveSteps(m: MtpState, h: Handle, parent: Handle)
    requires WfStore(m.dev.store)
    ensures var t := MoveObject(m, h, parent);
      Steps(m, t.m, if t.ok then FolderOf(m.dev.store, h) + {parent} else {}, if t.ok then {h} else {})
  {
    MoveEvolves(m, h, parent);
    var did := Device.Move(m.dev, h, parent);
    if CacheHolds(m) {
      ChangedKeepsCache(m, did.dev, did.verdict);
    }
    hide Evolves, CacheHolds;
  }

  lemma DeleteSteps(m: MtpState, h: Handle)
    requires WfStore(m.dev.store)
    ensures var t := DeleteObject(m, h);
      Steps(m, t.m, if t.ok then FolderOf(m.dev.store, h) else {}, {})
  {
    DeleteEvolves(m, h);
    var did := Device.Delete(m.dev, h);
    if CacheHolds(m) {
      ChangedKeepsCache(m, did.dev, did.verdict);
    }
    hide Evolves, CacheHolds;
  }

  lemma MakeFolderSteps(m: MtpState, parent: Handle, name: string)
    requires WfStore(m.dev.store)
    ensures var t := MakeFolder(m, parent, name);
      Steps(m, t.m, if t.ok then {parent} else {}, {})
  {
    MakeFolderEvolves(m, parent, name);
    var did := Device.Announce(m.dev, parent, name, 0, true);
    if CacheHolds(m) {
      ChangedKeepsCache(m, did.dev, did.verdict);
    }
    hide Evolves, CacheHolds;
  }

  lemma SendStaysReadable(m: MtpState, parent: Handle, name: string, bytes: seq<Byte>, size: nat)
    requires Readable(m)
    ensures Readable(SendObjectStream(m, parent, name, bytes, size).m)
  {
  }

  lemma SendStaysGenerous(m: MtpState, parent: Handle, name: string, bytes: seq<Byte>, size: nat)
    requires Generous(m.dev)
    ensures Generous(SendObjectStream(m, parent, name, bytes, size).m.dev)
  {
    var announced := Device.Announce(m.dev, parent, name, size, false);
    assert Generous(announced.dev);
    assert Generous(Device.Send(announced.dev, announced.value, parent, name, bytes, size).dev);
    hide Generous;
  }

  lemma SendSteps(m: MtpState, parent: Handle, name: string, bytes: seq<Byte>, size: nat)
    requires WfStore(m.dev.store)
    ensures Steps(m, SendObjectStream(m, parent, name, bytes, size).m, {parent}, {})
  {
    SendEvolves(m, parent, name, bytes, size);
    if CacheHolds(m) {
      SendKeepsCache(m, parent, name, bytes, size);
    }
    if Readable(m) {
      SendStaysReadable(m, parent, name, bytes, size);
    }
    if Generous(m.dev) {
      SendStaysGenerous(m, parent, name, bytes, size);
    }
    hide Evolves, CacheHolds, Readable, Generous, Device.Announce, Device.Send;
  }

  lemma StorageSteps(m: MtpState)
    requires WfStore(m.dev.store)
    ensures Steps(m, m.(dev := Device.Storage(m.dev).dev), {}, {})
  {
    NothingEvolves(m.dev.store);
    hide Evolves;
  }

  lemma ReadSteps(m: MtpState, h: Handle, offset: nat, want: nat)
    requires WfStore(m.dev.store) && CacheHolds(m) && h in m.dev.store.objects
    requires Fits(m, want, |m.dev.store.objects[h].data|)
    ensures Steps(m, ReadAt(m, h, offset, want, |m.dev.store.objects[h].data|).m, {}, {})
  {
    ReadAtIsSlice(m, h, offset, want);
    NothingEvolves(m.dev.store);
    hide Evolves, Backend.ReadAt, NoStall, AllDone, CacheHolds, Generous;
  }

  // ----- the mount under one operation -----

  /** The cache, the sizes and every listing outside `stale` are right. */
  ghost predicate BaseBut(w: World, stale: set<Handle>) {
    WfStore(w.m.dev.store) && CoherentBut(w.tree, w.m.dev.store, stale) && CacheHolds(w.m) && Readable(w.m)
  }

  ghost predicate BaseOk(w: World) {
    BaseBut(w, {})
  }

  lemma StepLeavesStale(w: World, w': World, stale: set<Handle>, touched: set<Handle>, moved: set<Handle>)
    requires BaseBut(w, stale) && Steps(w.m, w'.m, touched, moved) && w'.tree == w.tree
    ensures BaseBut(w', stale + touched)
  {
    StaysCoherent(w.tree, w.m.dev.store, w'.m.dev.store, stale, touched, moved);
    hide CoherentBut, CacheHolds, Readable, Generous;
  }

  lemma ForgottenIsFresh(w: World, stale: set<Handle>, folder: Handle)
    requires BaseBut(w, stale) && stale <= {folder}
    ensures BaseOk(Forgot(w, folder))
  {
    ForgetIsCoherent(w.tree, w.m.dev.store, stale, folder);
    assert stale - {folder} == {};
    hide CoherentBut, CacheHolds, Readable;
  }

  /** Spool files outside `except` are as they were; new numbers only go up. */
  ghost predicate HostKeeps(h: Host.HostState, h': Host.HostState, except: set<nat>) {
    && h.count <= h'.count
    && forall k: nat :: k < h.count && k !in except ==>
         (k in h'.files <==> k in h.files) && (k in h.files ==> h'.files[k] == h.files[k])
  }

  /** The spools of `path` in a mount. */
  function SpoolOf(w: World, path: string): set<nat> {
    if path in w.pending then {w.pending[path].spool} else {}
  }

  /** A callback that works on one path leaves every other entry and spool alone. */
  ghost predicate OnlyPath(w: World, w': World, path: string) {
    && HostKeeps(w.host, w'.host, SpoolOf(w, path))
    && (forall q :: q != path ==> (q in w'.pending <==> q in w.pending) && (q in w.pending ==> w'.pending[q] == w.pending[q]))
    && (path in w'.pending ==>
          (path in w.pending && w'.pending[path].spool == w.pending[path].spool)
          || w'.pending[path].spool >= w.host.count)
  }

  /** The device only moves on, and a generous one stays so. */
  ghost predicate Onward(m: MtpState, m': MtpState, moved: set<Handle>) {
    && Lasts(m.dev.store, m'.dev.store, moved)
    && (Generous(m.dev) ==> Generous(m'.dev))
    && m'.packet == m.packet && m'.wide == m.wide && m'.canRename == m.canRename && m'.canMove == m.canMove
  }

  lemma OnwardInTurn(a: MtpState, b: MtpState, c: MtpState, m1: set<Handle>, m2: set<Handle>)
    requires Onward(a, b, m1) && Onward(b, c, m2)
    ensures Onward(a, c, m1 + m2)
  {
    hide Generous;
  }

  lemma StepIsOnward(m: MtpState, m': MtpState, touched: set<Handle>, moved: set<Handle>)
    requires Steps(m, m', touched, moved)
    ensures Onward(m, m', moved)
  {
    hide Lasts, Generous, CacheHolds, Readable;
  }

  /** What a callback on `path` does to the mount. */
  ghost predicate Works(w: World, w': World, path: string) {
    BaseOk(w') && Onward(w.m, w'.m, {}) && OnlyPath(w, w', path)
  }

  lemma WorksInTurn(a: World, b: World, c: World, path: string)
    requires Works(a, b, path) && Works(b, c, path)
    ensures Works(a, c, path)
  {
    OnlyPathInTurn(a, b, c, path);
    var none: set<Handle> := {};
    OnwardInTurn(a.m, b.m, c.m, none, none);
    assert none + none == none;
    hide BaseOk, Onward, OnlyPath;
  }

  lemma OnlyPathInTurn(a: World, b: World, c: World, path: string)
    requires OnlyPath(a, b, path) && OnlyPath(b, c, path)
    ensures OnlyPath(a, c, path)
  {
  }

  /** A stretch of a callback that leaves every entry and every spool alone. */
  ghost predicate Quiet(w: World, w': World) {
    BaseOk(w') && Onward(w.m, w'.m, {}) && w'.pending == w.pending && HostKeeps(w.host, w'.host, {})
  }

  lemma QuietWorks(w: World, w': World, path: string)
    requires Quiet(w, w')
    ensures Works(w, w', path)
  {
    hide BaseOk, Onward;
  }

  lemma QuietInTurn(a: World, b: World, c: World)
    requires Quiet(a, b) && Quiet(b, c)
    ensures Quiet(a, c)
  {
    var none: set<Handle> := {};
    OnwardInTurn(a.m, b.m, c.m, none, none);
    assert none + none == none;
    hide BaseOk, Onward;
  }

  // ----- the entries -----

  /** An entry's place: the object it replaces, while it is there, is in the entry's folder. */
  ghost predicate Placed(p: Pending, s: Store) {
    p.replaced.Some? ==>
      p.replaced.value < s.next
      && (p.replaced.value in s.objects ==> s.objects[p.replaced.value].parent == p.parent)
  }

  /** One entry: well placed, with a spool of its own, as long as the entry says while whole. */
  ghost predicate EntryOk(w: World, p: Pending) {
    && Placed(p, w.m.dev.store)
    && p.spool in w.host.files && p.spool < w.host.count
    && (p.broken.None? ==> p.size == |w.host.files[p.spool]|)
  }

  ghost predicate SpoolsApart(w: World) {
    forall a, b :: a in w.pending && b in w.pending && a != b ==> w.pending[a].spool != w.pending[b].spool
  }

  /** What every callback keeps. */
  ghost predicate Good(w: World) {
    && BaseOk(w)
    && (forall q <- w.pending :: EntryOk(w, w.pending[q]))
    && SpoolsApart(w)
  }

  lemma PlacedStays(p: Pending, m: MtpState, m': MtpState, moved: set<Handle>)
    requires Placed(p, m.dev.store) && Onward(m, m', moved)
    requires p.replaced.Some? ==> p.replaced.value !in moved
    ensures Placed(p, m'.dev.store)
  {
    hide Generous, WfStore;
  }

  lemma EntryStays(w: World, w': World, p: Pending, except: set<nat>, moved: set<Handle>)
    requires EntryOk(w, p) && Onward(w.m, w'.m, moved) && HostKeeps(w.host, w'.host, except)
    requires p.spool !in except
    requires p.replaced.Some? ==> p.replaced.value !in moved
    ensures EntryOk(w', p)
  {
    PlacedStays(p, w.m, w'.m, moved);
    hide Placed, Onward;
  }

  lemma SpoolsStayApart(w: World, w': World, path: string)
    requires Good(w) && OnlyPath(w, w', path)
    ensures SpoolsApart(w')
  {
    hide HostKeeps, BaseOk;
    forall q | q in w.pending
      ensures w.pending[q].spool < w.host.count
    {
      assert EntryOk(w, w.pending[q]);
    }
    hide EntryOk;
  }

  /** A callback keeps the mount good when its own entry comes out right. */
  lemma PathIsGood(w: World, w': World, path: string)
    requires Good(w) && Works(w, w', path)
    requires path in w'.pending ==> EntryOk(w', w'.pending[path])
    ensures Good(w')
  {
    forall q | q in w'.pending && q != path
      ensures EntryOk(w', w'.pending[q])
    {
      EntryStays(w, w', w.pending[q], SpoolOf(w, path), {});
    }
    SpoolsStayApart(w, w', path);
    hide BaseOk, Onward, EntryOk, HostKeeps, SpoolsApart;
  }

  lemma QuietIsGood(w: World, w': World)
    requires Good(w) && Quiet(w, w')
    ensures Good(w')
  {
    forall q | q in w'.pending
      ensures EntryOk(w', w'.pending[q])
    {
      EntryStays(w, w', w.pending[q], {}, {});
    }
    hide BaseOk, Onward, EntryOk, HostKeeps;
  }

  // ----- resolve -----

  lemma ResolveKeeps(w: World, path: string)
    requires BaseOk(w)
    ensures var r := Resolve(w, path);
      && OnlyListed(w, r.w) && Quiet(w, r.w)
      && (r.h.Some? ==> Walk(w.m.dev.store, ROOT, Split(path)) == r.h
                        && LookupFrom(r.w.tree, ROOT, Split(path)) == Found(r.h.value))
  {
    ResolveLoopWalks(w, Split(path), MAX_WALK);
    var r := Resolve(w, path);
    assert Walks(w, r, Split(path), MAX_WALK) by {
      ResolveUnfolds(w, path);
    }
    hide IndexOk, Resolve, Walk, LookupFrom, Answers, Expected;
    ListedIsQuiet(w, r.w);
  }

  lemma ListedIsQuiet(w: World, w': World)
    requires BaseOk(w) && OnlyListed(w, w') && IndexOk(w')
    ensures Quiet(w, w')
  {
    hide CoherentBut, Generous;
  }

  lemma ResolveUnfolds(w: World, path: string)
    ensures Resolve(w, path) == ResolveLoop(w, Split(path), MAX_WALK)
  {
  }

  /** The entry the tree holds for a handle a path just gave is the object's own. */
  lemma {:induction false} FoundEntry(t: TreeState, s: Store, h: Handle, parts: seq<string>, k: Handle)
    requires WfStore(s) && Coherent(t, s) && (h == ROOT || (h in s.objects && h in t.entries && t.entries[h] == EntryOf(s, h)))
    requires LookupFrom(t, h, parts) == Found(k)
    ensures k == ROOT || (k in s.objects && k in t.entries && t.entries[k] == EntryOf(s, k))
    decreases |parts|
  {
    if parts != [] {
      assert ListingHolds(t, s, h);
      FirstNamedIsFirstKid(t, s, Kids(s, h), parts[0]);
      FirstKidIsThere(s.objects, Kids(s, h), parts[0]);
      FoundEntry(t, s, ChildNamed(t, h, parts[0]).value, parts[1..], k);
    }
  }

  lemma ResolvedEntry(w: World, path: string)
    requires BaseOk(w)
    ensures var r := Resolve(w, path);
      r.h.Some? && r.h.value != ROOT ==>
        && r.h.value in w.m.dev.store.objects
        && EntryAt(r.w.tree, r.h.value) == Some(EntryOf(w.m.dev.store, r.h.value))
  {
    ResolveKeeps(w, path);
    var r := Resolve(w, path);
    hide Resolve, Walk;
    if r.h.Some? {
      FoundEntry(r.w.tree, r.w.m.dev.store, ROOT, Split(path), r.h.value);
    }
  }

  // ----- the send -----

  lemma PlacedFolder(p: Pending, s: Store)
    requires Placed(p, s) && p.replaced.Some?
    ensures FolderOf(s, p.replaced.value) <= {p.parent}
  {
  }

  /** One request of a send, which touches at most the folder of the entry. */
  ghost predicate SendStep(w: World, w': World, p: Pending) {
    && BaseBut(w', {p.parent}) && Onward(w.m, w'.m, {}) && Placed(p, w'.m.dev.store)
    && w'.pending == w.pending && w'.tree == w.tree && w'.host == w.host
  }

  lemma SendStepMade(w: World, p: Pending, m: MtpState, touched: set<Handle>)
    requires BaseBut(w, {p.parent}) && Placed(p, w.m.dev.store)
    requires Steps(w.m, m, touched, {}) && touched <= {p.parent}
    ensures SendStep(w, w.(m := m), p)
  {
    var w' := w.(m := m);
    StepLeavesStale(w, w', {p.parent}, touched, {});
    assert {p.parent} + touched == {p.parent};
    StepIsOnward(w.m, m, touched, {});
    PlacedStays(p, w.m, m, {});
    hide BaseBut, Onward, Placed;
  }

  lemma DeleteOldStep(w: World, p: Pending)
    requires BaseBut(w, {p.parent}) && Placed(p, w.m.dev.store) && p.replaced.Some?
    ensures SendStep(w, w.(m := DeleteObject(w.m, p.replaced.value).m), p)
  {
    PlacedFolder(p, w.m.dev.store);
    DeleteSteps(w.m, p.replaced.value);
    hide CoherentBut, CacheHolds, Readable, DeleteObject, FolderOf, Placed, Steps;
    var t := DeleteObject(w.m, p.replaced.value);
    SendStepMade(w, p, t.m, if t.ok then FolderOf(w.m.dev.store, p.replaced.value) else {});
  }

  lemma RenameOldStep(w: World, p: Pending, name: string)
    requires BaseBut(w, {p.parent}) && Placed(p, w.m.dev.store) && p.replaced.Some?
    ensures SendStep(w, w.(m := RenameObject(w.m, p.replaced.value, name).m), p)
  {
    PlacedFolder(p, w.m.dev.store);
    RenameSteps(w.m, p.replaced.value, name);
    hide CoherentBut, CacheHolds, Readable, RenameObject, FolderOf, Placed, Steps;
    var t := RenameObject(w.m, p.replaced.value, name);
    SendStepMade(w, p, t.m, if t.ok then FolderOf(w.m.dev.store, p.replaced.value) else {});
  }

  lemma SendNewStep(w: World, p: Pending, bytes: seq<Byte>)
    requires BaseBut(w, {p.parent}) && Placed(p, w.m.dev.store)
    ensures SendStep(w, w.(m := SendObjectStream(w.m, p.parent, p.name, bytes, p.size).m), p)
  {
    SendSteps(w.m, p.parent, p.name, bytes, p.size);
    hide CoherentBut, CacheHolds, Readable, SendObjectStream, Placed, Steps;
    SendStepMade(w, p, SendObjectStream(w.m, p.parent, p.name, bytes, p.size).m, {p.parent});
  }

  lemma SendStepsInTurn(a: World, b: World, c: World, p: Pending)
    requires SendStep(a, b, p) && SendStep(b, c, p)
    ensures SendStep(a, c, p)
  {
    var none: set<Handle> := {};
    OnwardInTurn(a.m, b.m, c.m, none, none);
    assert none + none == none;
    hide BaseBut, Onward, Placed;
  }

  /** What a send makes of the mount and of its entry. */
  ghost predicate Sends(w: World, p: Pending, s: Sent) {
    && Quiet(w, s.w) && s.w.host.files == w.host.files
    && Placed(s.p, s.w.m.dev.store)
    && (s.p.replaced == None || s.p.replaced == p.replaced)
    && s.p == p.(replaced := s.p.replaced, keepSpool := s.p.keepSpool)
  }

  lemma SendStepEnds(w: World, w': World, p: Pending, s: Sent)
    requires SendStep(w, w', p) && s.w == Forgot(w', p.parent)
    requires s.p.replaced == None && s.p == p.(replaced := None, keepSpool := s.p.keepSpool)
    ensures Sends(w, p, s)
  {
    ForgottenIsFresh(w', {p.parent}, p.parent);
    hide BaseBut, Onward;
  }

  lemma SendContentsSends(w: World, p: Pending, oldCopyExists: bool)
    requires BaseBut(w, {p.parent}) && Placed(p, w.m.dev.store)
    ensures Sends(w, p, SendContents(w, p, oldCopyExists))
  {
    var bytes := Host.Contents(w.host, p.spool);
    var t := SendObjectStream(w.m, p.parent, p.name, bytes, p.size);
    var w1 := w.(m := t.m);
    SendNewStep(w, p, bytes);
    hide SendObjectStream, DeleteObject, RenameObject, BaseBut, Placed, SendStep, Sends, Forgot;
    var s := SendContents(w, p, oldCopyExists);
    if p.replaced.None? {
      SendStepEnds(w, w1, p, s);
    } else if t.ok {
      SendUnderWay(w, w1, p);
      DeleteOldStep(w1, p);
      var w2 := w1.(m := DeleteObject(w1.m, p.replaced.value).m);
      SendStepsInTurn(w, w1, w2, p);
      SendStepEnds(w, w2, p, s);
    } else {
      SendUnderWay(w, w1, p);
      RenameOldStep(w1, p, p.name);
      var w2 := w1.(m := RenameObject(w1.m, p.replaced.value, p.name).m);
      SendStepsInTurn(w, w1, w2, p);
      SendStepEnds(w, w2, p, s);
    }
  }

  lemma SendUnderWay(w: World, w': World, p: Pending)
    requires SendStep(w, w', p)
    ensures BaseBut(w', {p.parent}) && Placed(p, w'.m.dev.store)
  {
  }

  // ----- the send onto an object -----

  lemma StaleMore(w: World, stale: set<Handle>)
    requires BaseOk(w)
    ensures BaseBut(w, stale)
  {
    hide CacheHolds, Readable, Remembers, ListingHolds;
  }

  /** A request that faults makes nothing stale. */
  lemma StepIsQuiet(w: World, w': World, moved: set<Handle>)
    requires BaseOk(w) && Steps(w.m, w'.m, {}, {}) && w'.tree == w.tree
    requires w'.pending == w.pending && HostKeeps(w.host, w'.host, {})
    ensures Quiet(w, w')
  {
    var none: set<Handle> := {};
    StepLeavesStale(w, w', none, none, {});
    assert none + none == none;
    StepIsOnward(w.m, w'.m, {}, {});
    hide BaseBut, Onward, Steps;
  }

  lemma LaterSends(w: World, w1: World, p: Pending, p1: Pending, s: Sent)
    requires Onward(w.m, w1.m, {}) && w1.pending == w.pending && w1.host.files == w.host.files && w.host.count <= w1.host.count
    requires Sends(w1, p1, s) && (p1 == p || p1 == p.(replaced := None))
    ensures Sends(w, p, s)
  {
    var none: set<Handle> := {};
    OnwardInTurn(w.m, w1.m, s.w.m, none, none);
    assert none + none == none;
    hide BaseBut, Onward, Placed;
  }

  lemma QuietSends(w: World, w': World, p: Pending, rc: int)
    requires Quiet(w, w') && w'.host.files == w.host.files && Placed(p, w.m.dev.store)
    ensures Sends(w, p, Sent(w', p, rc))
  {
    PlacedStays(p, w.m, w'.m, {});
    hide BaseBut, Onward, Placed;
  }

  lemma SendBesideSends(w: World, p: Pending)
    requires BaseOk(w) && Placed(p, w.m.dev.store) && p.replaced.Some?
    ensures Sends(w, p, SendBeside(w, p, p.replaced.value))
  {
    var prev := p.replaced.value;
    var aside := AsideName(p.name, w.host.count);
    var w1 := w.(host := Host.Numbered(w.host));
    var t := RenameObject(w.m, prev, aside);
    var w2 := w1.(m := t.m);
    if t.ok {
      StaleMore(w, {p.parent});
      RenameOldStep(w, p, aside);
      var w3 := w.(m := t.m);
      hide RenameObject, SendContents, BaseBut, Placed, Sends, AsideName, Onward;
      HostAside(w3, w2, {p.parent});
      SendContentsSends(w2, p, true);
      LaterSends(w, w2, p, p, SendContents(w2, p, true));
    } else {
      RenameSteps(w.m, prev, aside);
      hide RenameObject, BaseBut, Placed, Sends, AsideName, Steps;
      StepIsQuiet(w, w2, {});
      QuietSends(w, w2, p, -EIO);
    }
  }

  lemma HostAside(w: World, w': World, stale: set<Handle>)
    requires BaseBut(w, stale) && w'.m == w.m && w'.tree == w.tree
    ensures BaseBut(w', stale)
  {
  }

  lemma SendInPlaceSends(w: World, p: Pending)
    requires BaseOk(w) && Placed(p, w.m.dev.store) && p.replaced.Some?
    ensures Sends(w, p, SendInPlace(w, p, p.replaced.value))
  {
    var prev := p.replaced.value;
    var t := DeleteObject(w.m, prev);
    var w1 := w.(m := t.m);
    if t.ok {
      StaleMore(w, {p.parent});
      DeleteOldStep(w, p);
      var p1 := p.(replaced := None);
      hide DeleteObject, SendContents, BaseBut, Sends, Onward;
      SendContentsSends(w1, p1, false);
      LaterSends(w, w1, p, p1, SendContents(w1, p1, false));
    } else {
      DeleteSteps(w.m, prev);
      hide DeleteObject, BaseBut, Placed, Sends, Steps;
      StepIsQuiet(w, w1, {});
      QuietSends(w, w1, p, -EIO);
    }
  }

  lemma SendOverSends(w: World, p: Pending)
    requires BaseOk(w) && Placed(p, w.m.dev.store) && p.replaced.Some?
    ensures Sends(w, p, SendOver(w, p, p.replaced.value))
  {
    var prev := p.replaced.value;
    var w1 := w.(m := w.m.(dev := Device.Storage(w.m.dev).dev));
    StorageSteps(w.m);
    hide Device.Storage, FreeSpace, OldSize, SendBeside, SendInPlace, BaseBut, Placed, Sends, Steps, Onward;
    StepIsQuiet(w, w1, {});
    PlacedStays(p, w.m, w1.m, {});
    SendBesideSends(w1, p);
    SendInPlaceSends(w1, p);
    LaterSends(w, w1, p, p, SendBeside(w1, p, prev));
    LaterSends(w, w1, p, p, SendInPlace(w1, p, prev));
    QuietSends(w, w1, p, -ENOSPC);
  }

  lemma SendPendingSends(w: World, p: Pending)
    requires BaseOk(w) && Placed(p, w.m.dev.store)
    ensures Sends(w, p, SendPending(w, p))
  {
    hide SendContents, SendOver, BaseBut, Placed, Sends, Onward;
    var w1 := w.(host := Host.SeekStart(w.host).h);
    if p.broken.Some? {
      StaysQuiet(w, w);
      QuietSends(w, w, p, SendPending(w, p).rc);
    } else {
      StaysQuiet(w, w1);
      if !Host.SeekStart(w.host).ok {
        QuietSends(w, w1, p, -EIO);
      } else if p.replaced.Some? {
        SendOverSends(w1, p);
        LaterSends(w, w1, p, p, SendOver(w1, p, p.replaced.value));
      } else {
        StaleMore(w1, {p.parent});
        SendContentsSends(w1, p, true);
        LaterSends(w, w1, p, p, SendContents(w1, p, true));
      }
    }
  }

  lemma StaysQuiet(w: World, w': World)
    requires BaseOk(w) && w'.m == w.m && w'.tree == w.tree && w'.pending == w.pending
    requires HostKeeps(w.host, w'.host, {})
    ensures Quiet(w, w')
  {
    hide Remembers, ListingHolds, CacheHolds, Readable;
  }
}
