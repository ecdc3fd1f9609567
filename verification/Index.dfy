/** The lazily filled tree agrees with the device: coherence of its listings, and `resolve`
    against a direct walk. `crates/mtpfs/src/main.rs`, lines 525 to 541;
    `crates/mtpfs/src/tree.rs`, lines 79 to 134 and 167 to 183. */
module Index {
  import opened Bytes
  import opened Wrappers
  import opened PathTree
  import opened Device
  import opened Backend
  import opened ReadAhead
  import opened World

  // ----- coherence -----

  /** One listing holds the children the device holds, in its order, each as it is. */
  ghost predicate ListingHolds(t: TreeState, s: Store, folder: Handle) {
    && folder in t.children && t.children[folder] == Kids(s, folder)
    && forall h <- Kids(s, folder) :: h in s.objects && h in t.entries && t.entries[h] == EntryOf(s, h)
  }

  /** What the tree remembers of an object has its kind and its size, while it is there. */
  ghost predicate Remembers(t: TreeState, s: Store) {
    forall h <- t.entries :: 0 < h < s.next
      && (h in s.objects ==> t.entries[h].isDir == s.objects[h].isDir && t.entries[h].size == |s.objects[h].data|)
  }

  /** Every listing outside `stale` of a folder the device still has holds; and a listed handle
      is one the device gave out, and no file's. */
  ghost predicate CoherentBut(t: TreeState, s: Store, stale: set<Handle>) {
    && Remembers(t, s)
    && (forall p <- t.listed :: p < s.next && (p in s.objects ==> s.objects[p].isDir))
    && (forall p <- t.listed :: p !in stale && IsFolder(s, p) ==> ListingHolds(t, s, p))
  }

  ghost predicate Coherent(t: TreeState, s: Store) {
    CoherentBut(t, s, {})
  }

  /** The index and the device as a whole. */
  ghost predicate IndexOk(w: World) {
    WfStore(w.m.dev.store) && Coherent(w.tree, w.m.dev.store)
  }

  // ----- how a store may change under a tree -----

  /** No handle comes back; an object that stays keeps its kind and its bytes, and outside
      `moved` its folder. */
  ghost predicate Lasts(s: Store, s': Store, moved: set<Handle>) {
    && WfStore(s') && s.next <= s'.next
    && (forall h <- s'.objects :: h < s.next ==>
          h in s.objects && s'.objects[h].isDir == s.objects[h].isDir && s'.objects[h].data == s.objects[h].data
          && (h !in moved ==> s'.objects[h].parent == s.objects[h].parent))
  }

  /** No handle comes back, and an object that stays keeps its bytes. */
  ghost predicate Endures(s: Store, s': Store) {
    && s.next <= s'.next
    && forall h <- s'.objects :: h < s.next ==> h in s.objects && s'.objects[h].data == s.objects[h].data
  }

  lemma EnduresInTurn(a: Store, b: Store, c: Store)
    requires Endures(a, b) && Endures(b, c)
    ensures Endures(a, c)
  {
  }

  /** And folders outside `touched` keep their children, each as it is. */
  ghost predicate Evolves(s: Store, s': Store, touched: set<Handle>, moved: set<Handle>) {
    && Lasts(s, s', moved)
    && (forall p: Handle :: p !in touched ==> SameFolder(s, s', p))
  }

  ghost predicate SameFolder(s: Store, s': Store, p: Handle) {
    && Kids(s', p) == Kids(s, p)
    && forall h <- Kids(s, p) :: h in s.objects && h in s'.objects && s'.objects[h] == s.objects[h]
  }

  lemma StaysCoherent(t: TreeState, s: Store, s': Store, stale: set<Handle>, touched: set<Handle>,
                      moved: set<Handle>)
    requires CoherentBut(t, s, stale) && Evolves(s, s', touched, moved)
    ensures CoherentBut(t, s', stale + touched)
  {
    forall p | p in t.listed && p !in stale + touched && IsFolder(s', p)
      ensures ListingHolds(t, s', p)
    {
      assert SameFolder(s, s', p);
      assert ListingHolds(t, s, p);
    }
  }

  /** A forgotten listing is stale no more. */
  lemma ForgetIsCoherent(t: TreeState, s: Store, stale: set<Handle>, folder: Handle)
    requires CoherentBut(t, s, stale)
    ensures CoherentBut(Forget(t, folder), s, stale - {folder})
  {
    var t' := Forget(t, folder);
    forall p | p in t'.listed && p !in stale - {folder} && IsFolder(s, p)
      ensures ListingHolds(t', s, p)
    {
      assert ListingHolds(t, s, p);
    }
  }

  // ----- the children after one change -----

  lemma {:induction false} KidsAgree(a: map<Handle, Object>, b: map<Handle, Object>,
                                     order: seq<Handle>, p: Handle)
    requires forall h <- order :: (h in a && a[h].parent == p) <==> (h in b && b[h].parent == p)
    ensures KidsIn(a, order, p) == KidsIn(b, order, p)
  {
    if order != [] {
      assert order[0] in order;
      KidsAgree(a, b, order[1..], p);
    }
  }

  lemma {:induction false} KidsSnoc(objects: map<Handle, Object>, order: seq<Handle>, h: Handle, p: Handle)
    ensures KidsIn(objects, order + [h], p) ==
            KidsIn(objects, order, p) + (if h in objects && objects[h].parent == p then [h] else [])
  {
    if order == [] {
      assert [h] == [h] + [];
    } else {
      KidsSnoc(objects, order[1..], h, p);
      assert (order + [h])[1..] == order[1..] + [h];
    }
  }

  /** A change to one object touches the folder it was in and the folder it is in. */
  lemma OneObjectEvolves(s: Store, h: Handle, o: Object)
    requires WfStore(s) && h in s.objects && o.isDir == s.objects[h].isDir && o.data == s.objects[h].data
    ensures Evolves(s, s.(objects := s.objects[h := o]), {s.objects[h].parent, o.parent}, {h})
    ensures o.parent == s.objects[h].parent ==>
      Evolves(s, s.(objects := s.objects[h := o]), {o.parent}, {})
  {
    var s' := s.(objects := s.objects[h := o]);
    forall p: Handle | p != s.objects[h].parent && p != o.parent
      ensures SameFolder(s, s', p)
    {
      KidsAgree(s.objects, s'.objects, s.order, p);
      KidsAreThere(s.objects, s.order, p);
    }
  }

  lemma RemovalEvolves(s: Store, h: Handle)
    requires WfStore(s) && h in s.objects
    ensures Evolves(s, s.(objects := s.objects - {h}), {s.objects[h].parent}, {})
  {
    var s' := s.(objects := s.objects - {h});
    forall p: Handle | p != s.objects[h].parent
      ensures SameFolder(s, s', p)
    {
      KidsAgree(s.objects, s'.objects, s.order, p);
      KidsAreThere(s.objects, s.order, p);
    }
  }

  /** A handle given out to an object that never arrives touches nothing. */
  lemma HandleTakenEvolves(s: Store)
    requires WfStore(s) && s.next < 0x1_0000_0000
    ensures Evolves(s, s.(next := s.next + 1), {}, {})
  {
    var s' := s.(next := s.next + 1);
    forall p: Handle
      ensures SameFolder(s, s', p)
    {
      KidsAreThere(s.objects, s.order, p);
    }
  }

  lemma NothingEvolves(s: Store)
    requires WfStore(s)
    ensures Evolves(s, s, {}, {})
  {
    forall p: Handle
      ensures SameFolder(s, s, p)
    {
      KidsAreThere(s.objects, s.order, p);
    }
  }

  /** A new object touches the folder it arrives in. */
  lemma ArrivalEvolves(s: Store, o: Object)
    requires WfStore(s) && s.next < 0x1_0000_0000
    ensures Evolves(s, Add(s.(next := s.next + 1), s.next, o), {o.parent}, {})
  {
    var h: Handle := s.next;
    var s' := Add(s.(next := s.next + 1), h, o);
    forall p: Handle | p != o.parent
      ensures SameFolder(s, s', p)
    {
      KidsAgree(s.objects, s'.objects, s.order, p);
      KidsSnoc(s'.objects, s.order, h, p);
      KidsAreThere(s.objects, s.order, p);
    }
  }

  // ----- one operation of the session -----

  /** The folder an object is in. */
  function FolderOf(s: Store, h: Handle): set<Handle> {
    if h in s.objects then {s.objects[h].parent} else {}
  }

  lemma MoreTouched(s: Store, s': Store, t1: set<Handle>, t2: set<Handle>, m1: set<Handle>, m2: set<Handle>)
    requires Evolves(s, s', t1, m1) && t1 <= t2 && m1 <= m2
    ensures Evolves(s, s', t2, m2)
  {
  }

  lemma RenameEvolves(m: MtpState, h: Handle, name: string)
    requires WfStore(m.dev.store)
    ensures var t := RenameObject(m, h, name);
      Evolves(m.dev.store, t.m.dev.store, if t.ok then FolderOf(m.dev.store, h) else {}, {})
  {
    var s := m.dev.store;
    NothingEvolves(s);
    if h in s.objects {
      OneObjectEvolves(s, h, s.objects[h].(name := name));
    }
    hide Evolves;
  }

  lemma MoveEvolves(m: MtpState, h: Handle, parent: Handle)
    requires WfStore(m.dev.store)
    ensures var t := MoveObject(m, h, parent);
      Evolves(m.dev.store, t.m.dev.store, if t.ok then FolderOf(m.dev.store, h) + {parent} else {}, if t.ok then {h} else {})
  {
    var s := m.dev.store;
    NothingEvolves(s);
    if h in s.objects {
      OneObjectEvolves(s, h, s.objects[h].(parent := parent));
      assert {s.objects[h].parent, parent} == FolderOf(s, h) + {parent};
    }
    hide Evolves;
  }

  lemma DeleteEvolves(m: MtpState, h: Handle)
    requires WfStore(m.dev.store)
    ensures var t := DeleteObject(m, h);
      Evolves(m.dev.store, t.m.dev.store, if t.ok then FolderOf(m.dev.store, h) else {}, {})
  {
    var s := m.dev.store;
    NothingEvolves(s);
    if h in s.objects {
      RemovalEvolves(s, h);
    }
    hide Evolves;
  }

  lemma MakeFolderEvolves(m: MtpState, parent: Handle, name: string)
    requires WfStore(m.dev.store)
    ensures var t := MakeFolder(m, parent, name);
      Evolves(m.dev.store, t.m.dev.store, if t.ok then {parent} else {}, {})
  {
    var s := m.dev.store;
    NothingEvolves(s);
    if s.next < 0x1_0000_0000 {
      ArrivalEvolves(s, Object(parent, name, true, []));
    }
    hide Evolves;
  }

  lemma SendEvolves(m: MtpState, parent: Handle, name: string, bytes: seq<Byte>, size: nat)
    requires WfStore(m.dev.store)
    ensures Evolves(m.dev.store, SendObjectStream(m, parent, name, bytes, size).m.dev.store, {parent}, {})
  {
    var s := m.dev.store;
    NothingEvolves(s);
    MoreTouched(s, s, {}, {parent}, {}, {});
    if s.next < 0x1_0000_0000 {
      HandleTakenEvolves(s);
      MoreTouched(s, s.(next := s.next + 1), {}, {parent}, {}, {});
      if size <= |bytes| {
        ArrivalEvolves(s, Object(parent, name, false, bytes[..size]));
      }
    }
    hide Evolves;
  }

  // ----- a listing made now -----

  lemma {:induction false} InsertedEntries(entries: map<Handle, Entry>, s: Store, hs: seq<Handle>)
    requires forall h <- hs :: h in s.objects
    ensures var r := InsertAll(entries, EntriesOf(s, hs));
      && (forall h :: h in hs ==> h in r && r[h] == EntryOf(s, h))
      && (forall h :: h !in hs ==> (h in r <==> h in entries) && (h in r ==> r[h] == entries[h]))
    decreases |hs|
  {
    if hs != [] {
      assert EntriesOf(s, hs)[1..] == EntriesOf(s, hs[1..]);
      InsertedEntries(entries[hs[0] := EntryOf(s, hs[0])], s, hs[1..]);
    }
  }

  /** A listing read now holds, and disturbs no other that holds. */
  lemma ListingIsCoherent(t: TreeState, s: Store, stale: set<Handle>, folder: Handle)
    requires WfStore(s) && CoherentBut(t, s, stale) && IsFolder(s, folder)
    requires forall h <- Kids(s, folder) :: h in s.objects
    ensures CoherentBut(WithChildren(t, folder, EntriesOf(s, Kids(s, folder))), s, stale - {folder})
  {
    var kids := Kids(s, folder);
    var t' := WithChildren(t, folder, EntriesOf(s, kids));
    InsertedEntries(t.entries, s, kids);
    assert Handles(EntriesOf(s, kids)) == kids;
    forall p | p in t'.listed && p !in stale - {folder} && IsFolder(s, p)
      ensures ListingHolds(t', s, p)
    {
      if p != folder {
        assert ListingHolds(t, s, p);
        KidsAreThere(s.objects, s.order, p);
        KidsAreThere(s.objects, s.order, folder);
      }
    }
  }

  // ----- a direct walk of the device -----

  /** The first of the objects under a name. */
  function FirstKid(objects: map<Handle, Object>, hs: seq<Handle>, name: string): Option<Handle> {
    if hs == [] then None
    else if hs[0] in objects && objects[hs[0]].name == name then Some(hs[0])
    else FirstKid(objects, hs[1..], name)
  }

  /** The object a path names on the device: at each part, the first child of that name. */
  function Walk(s: Store, h: Handle, parts: seq<string>): Option<Handle>
    decreases |parts|
  {
    if parts == [] then Some(h)
    else if !IsFolder(s, h) then None
    else
      match FirstKid(s.objects, Kids(s, h), parts[0])
      case None => None
      case Some(k) => Walk(s, k, parts[1..])
  }

  /** The folders on the walk whose listing the tree does not hold. */
  function Unlisted(t: TreeState, s: Store, h: Handle, parts: seq<string>): (r: set<Handle>)
    ensures |r| <= |parts|
    decreases |parts|
  {
    if parts == [] || !IsFolder(s, h) then {}
    else
      var here := if h in t.listed then {} else {h};
      match FirstKid(s.objects, Kids(s, h), parts[0])
      case None => here
      case Some(k) =>
        var rest := Unlisted(t, s, k, parts[1..]);
        assert h !in rest ==> |{h} + rest| == 1 + |rest|;
        assert h in rest ==> {h} + rest == rest;
        here + rest
  }

  lemma {:induction false} FirstNamedIsFirstKid(t: TreeState, s: Store, hs: seq<Handle>, name: string)
    requires forall h <- hs :: h in s.objects && h in t.entries && t.entries[h] == EntryOf(s, h)
    ensures FirstNamed(t.entries, hs, name) == FirstKid(s.objects, hs, name)
  {
    if hs != [] {
      assert hs[0] in hs;
      FirstNamedIsFirstKid(t, s, hs[1..], name);
    }
  }

  lemma {:induction false} LookupFollowsWalk(t: TreeState, s: Store, h: Handle, parts: seq<string>)
    requires WfStore(s) && Coherent(t, s) && (h == ROOT || h in s.objects)
    ensures match LookupFrom(t, h, parts)
      case Found(k) => Walk(s, h, parts) == Some(k) && Unlisted(t, s, h, parts) == {}
      case NotFound => Walk(s, h, parts) == None && Unlisted(t, s, h, parts) == {}
      case NeedListing(p) => if IsFolder(s, p) then p !in t.listed && p in Unlisted(t, s, h, parts)
                             else Walk(s, h, parts) == None
    decreases |parts|
  {
    if parts != [] && h in t.listed {
      assert IsFolder(s, h);
      assert ListingHolds(t, s, h);
      FirstNamedIsFirstKid(t, s, Kids(s, h), parts[0]);
      var k := FirstKid(s.objects, Kids(s, h), parts[0]);
      if k.Some? {
        FirstKidIsThere(s.objects, Kids(s, h), parts[0]);
        LookupFollowsWalk(t, s, k.value, parts[1..]);
      }
    }
  }

  lemma {:induction false} FirstKidIsThere(objects: map<Handle, Object>, hs: seq<Handle>, name: string)
    ensures FirstKid(objects, hs, name).Some? ==>
      var k := FirstKid(objects, hs, name).value; k in objects && objects[k].name == name && k in hs
  {
    if hs != [] {
      FirstKidIsThere(objects, hs[1..], name);
    }
  }

  lemma {:induction false} ListingShrinksUnlisted(t: TreeState, t': TreeState, s: Store, p: Handle,
                                                  h: Handle, parts: seq<string>)
    requires t'.listed == t.listed + {p}
    ensures Unlisted(t', s, h, parts) == Unlisted(t, s, h, parts) - {p}
    decreases |parts|
  {
    if parts != [] && IsFolder(s, h) {
      match FirstKid(s.objects, Kids(s, h), parts[0]) {
        case None =>
        case Some(k) => ListingShrinksUnlisted(t, t', s, p, k, parts[1..]);
      }
    }
  }

  // ----- resolve -----

  /** What a walk of the tree leaves alone. */
  ghost predicate OnlyListed(w: World, w': World) {
    && w'.m == w.m.(dev := w'.m.dev) && w'.m.dev.store == w.m.dev.store
    && w'.host == w.host && w'.pending == w.pending
    && w.tree.listed <= w'.tree.listed
    && (Generous(w.m.dev) ==> Generous(w'.m.dev))
  }

  /** The device answers the next `n` requests. */
  ghost predicate Answers(d: Dev, n: nat) {
    |d.script| >= n && forall i :: 0 <= i < n ==> d.script[i].verdict.Done?
  }

  lemma ListStep(w: World, folder: Handle)
    requires IndexOk(w)
    ensures var did := Device.List(w.m.dev, folder); var w' := Listed(w, did, folder);
      && OnlyListed(w, w') && IndexOk(w')
      && (did.verdict.Done? ==> IsFolder(w.m.dev.store, folder) && w'.tree.listed == w.tree.listed + {folder})
      && (!did.verdict.Done? ==> w'.tree == w.tree)
  {
    var s := w.m.dev.store;
    KidsAreThere(s.objects, s.order, folder);
    if IsFolder(s, folder) {
      ListingIsCoherent(w.tree, s, {}, folder);
      assert {} - {folder} == {};
    }
    hide CoherentBut, EntriesOf, Kids;
  }

  /** A device that answers lists a folder, and only a folder. */
  lemma AnswersList(d: Dev, folder: Handle, n: nat)
    requires Answers(d, n + 1)
    ensures Device.List(d, folder).verdict.Done? <==> IsFolder(d.store, folder)
    ensures Answers(Device.List(d, folder).dev, n)
  {
  }

  /** What `resolve` comes to, when the device answers. */
  function Expected(t: TreeState, s: Store, parts: seq<string>, rounds: nat): Option<Handle> {
    if |Unlisted(t, s, ROOT, parts)| < rounds then Walk(s, ROOT, parts) else None
  }

  lemma ExpectedStep(t: TreeState, t': TreeState, s: Store, p: Handle, parts: seq<string>, rounds: nat)
    requires rounds > 0 && t'.listed == t.listed + {p}
    requires IsFolder(s, p) ==> p in Unlisted(t, s, ROOT, parts)
    ensures IsFolder(s, p) ==> Expected(t', s, parts, rounds - 1) == Expected(t, s, parts, rounds)
  {
    ListingShrinksUnlisted(t, t', s, p, ROOT, parts);
  }

  /** `resolve` keeps the index, and a handle it gives is the one the direct walk gives. */
  ghost predicate Walks(w: World, r: Resolved, parts: seq<string>, rounds: nat) {
    && OnlyListed(w, r.w) && IndexOk(r.w)
    && (r.h.Some? ==> Walk(w.m.dev.store, ROOT, parts) == r.h && LookupFrom(r.w.tree, ROOT, parts) == Found(r.h.value))
    && (Answers(w.m.dev, rounds) ==> r.h == Expected(w.tree, w.m.dev.store, parts, rounds))
  }

  lemma WalksAfterListing(w: World, w1: World, r: Resolved, p: Handle, parts: seq<string>, rounds: nat)
    requires rounds > 0 && OnlyListed(w, w1) && Walks(w1, r, parts, rounds - 1)
    requires Answers(w.m.dev, rounds) ==> Answers(w1.m.dev, rounds - 1)
    requires Expected(w1.tree, w.m.dev.store, parts, rounds - 1) == Expected(w.tree, w.m.dev.store, parts, rounds)
    ensures Walks(w, r, parts, rounds)
  {
    hide IndexOk, Expected, Answers, Walk, LookupFrom;
  }

  lemma {:induction false} ResolveLoopWalks(w: World, parts: seq<string>, rounds: nat)
    requires IndexOk(w)
    ensures Walks(w, ResolveLoop(w, parts, rounds), parts, rounds)
    decreases rounds
  {
    hide Device.List, Listed, Walk, Unlisted, CoherentBut, WfStore, Answers, Expected, IsFolder;
    if rounds == 0 {
      NoRounds(w, parts);
    } else {
      var s := w.m.dev.store;
      LookupEnds(w, parts, rounds);
      match LookupFrom(w.tree, ROOT, parts) {
        case Found(_) =>
        case NotFound =>
        case NeedListing(p) =>
          ListStep(w, p);
          var did := Device.List(w.m.dev, p);
          var w1 := Listed(w, did, p);
          if did.verdict.Done? {
            LookupFollowsWalk(w.tree, s, ROOT, parts);
            ExpectedStep(w.tree, w1.tree, s, p, parts, rounds);
            ResolveLoopWalks(w1, parts, rounds - 1);
            ListedKeepsAnswers(w, p, rounds);
            WalksAfterListing(w, w1, ResolveLoop(w1, parts, rounds - 1), p, parts, rounds);
          } else {
            UnlistableEnds(w, parts, p, rounds);
          }
      }
    }
  }

  lemma NoRounds(w: World, parts: seq<string>)
    requires IndexOk(w)
    ensures Walks(w, Resolved(w, None), parts, 0)
  {
  }

  lemma LookupEnds(w: World, parts: seq<string>, rounds: nat)
    requires IndexOk(w) && rounds > 0
    ensures var found := LookupFrom(w.tree, ROOT, parts);
      && (found.Found? ==> Walks(w, Resolved(w, Some(found.h)), parts, rounds))
      && (found.NotFound? ==> Walks(w, Resolved(w, None), parts, rounds))
  {
    LookupFollowsWalk(w.tree, w.m.dev.store, ROOT, parts);
    hide Walk, Unlisted, CoherentBut, Answers;
  }

  lemma ListedKeepsAnswers(w: World, p: Handle, rounds: nat)
    requires rounds > 0
    ensures Answers(w.m.dev, rounds) ==> Answers(Listed(w, Device.List(w.m.dev, p), p).m.dev, rounds - 1)
  {
    if Answers(w.m.dev, rounds) {
      AnswersList(w.m.dev, p, rounds - 1);
    }
    hide Device.List;
  }

  lemma UnlistableEnds(w: World, parts: seq<string>, p: Handle, rounds: nat)
    requires IndexOk(w) && rounds > 0 && LookupFrom(w.tree, ROOT, parts) == NeedListing(p)
    requires !Device.List(w.m.dev, p).verdict.Done?
    ensures Walks(w, Resolved(Listed(w, Device.List(w.m.dev, p), p), None), parts, rounds)
  {
    ListStep(w, p);
    LookupFollowsWalk(w.tree, w.m.dev.store, ROOT, parts);
    if Answers(w.m.dev, rounds) {
      AnswersList(w.m.dev, p, rounds - 1);
    }
    hide Device.List, Listed, Walk, Unlisted, CoherentBut, WfStore, Answers;
  }

  /** The resolve law: with a device that answers, `resolve` equals the direct walk, unless
      the walk crosses 64 folders the tree does not hold, and then it gives nothing. */
  lemma ResolveIsWalkIff(w: World, path: string)
    requires IndexOk(w) && Answers(w.m.dev, MAX_WALK)
    ensures Resolve(w, path).h == Walk(w.m.dev.store, ROOT, Split(path))
      <==> |Unlisted(w.tree, w.m.dev.store, ROOT, Split(path))| < MAX_WALK
           || Walk(w.m.dev.store, ROOT, Split(path)) == None
    ensures |Split(path)| < MAX_WALK ==> Resolve(w, path).h == Walk(w.m.dev.store, ROOT, Split(path))
  {
    ResolveLoopWalks(w, Split(path), MAX_WALK);
    hide Walk, Unlisted, IndexOk, Answers, OnlyListed;
  }
}
