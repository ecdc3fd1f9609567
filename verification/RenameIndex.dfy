/** What a rename does to the index: it stays right exactly when no move to another folder is
    left half done. `crates/mtpfs/src/main.rs`, lines 842 to 950 and 1022 to 1028. */
module RenameIndex {
  import opened Wrappers
  import opened PathTree
  import opened Device
  import opened Backend
  import opened World
  import Mount = World
  import opened Index
  import opened Upkeep
  import opened Callbacks
  import opened Walks
  import ReadAhead
  import RenameSafety
  import Host

  // ----- the folder of a resolved path -----

  lemma {:induction false} LookupPassesFolder(t: TreeState, h: Handle, parts: seq<string>, name: string)
    requires LookupFrom(t, h, parts + [name]).Found?
    ensures LookupFrom(t, h, parts).Found? && LookupFrom(t, h, parts).h in t.listed
    decreases |parts|
  {
    if parts == [] {
      assert parts + [name] == [name];
    } else {
      assert (parts + [name])[1..] == parts[1..] + [name];
      LookupPassesFolder(t, ChildNamed(t, h, parts[0]).value, parts[1..], name);
    }
  }

  /** The object a path names is in the folder its folder part names, and the tree holds the
      listing of that folder. */
  ghost predicate InFolder(t: TreeState, s: Store, h: Handle, folder: Handle) {
    && h in s.objects && s.objects[h].parent == folder && h in Kids(s, folder)
    && folder in t.listed && IsFolder(s, folder)
  }

  lemma ResolvedFolder(t: TreeState, s: Store, path: string, h: Handle, folder: Handle)
    requires WfStore(s) && Coherent(t, s) && Proper(path)
    requires LookupFrom(t, ROOT, Split(path)) == Found(h)
    requires Walk(s, ROOT, Split(path)) == Some(h)
    requires Walk(s, ROOT, Split(SplitParent(path).0)) == Some(folder)
    ensures InFolder(t, s, h, folder)
  {
    var (dir, name) := SplitParent(path);
    SplitParentSplits(path);
    hide SplitParent;
    WalkAppend(s, ROOT, Split(dir), name);
    LookupPassesFolder(t, ROOT, Split(dir), name);
    LookupFollowsWalk(t, s, ROOT, Split(dir));
    hide Walk, LookupFrom;
    FirstKidIsThere(s.objects, Kids(s, folder), name);
    KidsAreThere(s.objects, s.order, folder);
  }

  lemma InFolderStays(w: World, w': World, h: Handle, folder: Handle)
    requires InFolder(w.tree, w.m.dev.store, h, folder) && OnlyListed(w, w')
    ensures InFolder(w'.tree, w'.m.dev.store, h, folder)
  {
  }

  lemma InFolderEntry(w: World, h: Handle, folder: Handle)
    requires BaseOk(w) && InFolder(w.tree, w.m.dev.store, h, folder)
    ensures h in w.tree.entries && w.tree.entries[h] == EntryOf(w.m.dev.store, h)
  {
    assert ListingHolds(w.tree, w.m.dev.store, folder);
  }

  // ----- the plan -----

  /** A plan the checks let through: its objects are where it says, listed, and as the tree has them. */
  ghost predicate WellPlanned(w: World, plan: Plan) {
    && RenameSafety.Sensible(w, plan)
    && InFolder(w.tree, w.m.dev.store, plan.h, plan.oldParent)
    && (plan.taken.Some? ==> InFolder(w.tree, w.m.dev.store, plan.taken.value, plan.newParent))
  }

  /** A `resolve` of a part of a rename, and the store it leaves alone. */
  lemma ResolveOnce(w: World, path: string)
    requires BaseOk(w)
    ensures var r := Resolve(w, path);
      && BaseOk(r.w) && Quiet(w, r.w) && OnlyListed(w, r.w)
      && (r.h.Some? ==> Walk(w.m.dev.store, ROOT, Split(path)) == r.h
                        && LookupFrom(r.w.tree, ROOT, Split(path)) == Found(r.h.value))
  {
    ResolveKeeps(w, path);
    hide Resolve, Walk, LookupFrom;
    QuietIsOk(w, Resolve(w, path).w);
  }

  lemma FolderOfResolved(w: World, path: string, h: Handle, folder: Handle)
    requires BaseOk(w) && Proper(path)
    requires LookupFrom(w.tree, ROOT, Split(path)) == Found(h)
    requires Walk(w.m.dev.store, ROOT, Split(path)) == Some(h)
    requires Walk(w.m.dev.store, ROOT, Split(SplitParent(path).0)) == Some(folder)
    ensures InFolder(w.tree, w.m.dev.store, h, folder)
  {
    ResolvedFolder(w.tree, w.m.dev.store, path, h, folder);
  }

  lemma SourceIsInFolder(w: World, from: string)
    requires BaseOk(w) && Proper(from)
    ensures var a := Resolve(w, from); var b := Resolve(a.w, SplitParent(from).0);
      a.h.Some? && b.h.Some? ==> InFolder(b.w.tree, b.w.m.dev.store, a.h.value, b.h.value)
  {
    var a := Resolve(w, from);
    ResolveOnce(w, from);
    var b := Resolve(a.w, SplitParent(from).0);
    ResolveOnce(a.w, SplitParent(from).0);
    hide Resolve, Walk, LookupFrom, SplitParent, InFolder, BaseOk, Quiet;
    if a.h.Some? && b.h.Some? {
      FolderOfResolved(a.w, from, a.h.value, b.h.value);
      InFolderStays(a.w, b.w, a.h.value, b.h.value);
    }
  }

  /** The plan is about the objects the two paths name: the source, both folders, the new name,
      and the target when it was found. */
  ghost predicate NamedBy(s: Store, plan: Plan, from: string, to: string) {
    && Walk(s, ROOT, Split(from)) == Some(plan.h)
    && Walk(s, ROOT, Split(SplitParent(from).0)) == Some(plan.oldParent)
    && Walk(s, ROOT, Split(SplitParent(to).0)) == Some(plan.newParent)
    && plan.newName == SplitParent(to).1
    && (plan.taken.Some? ==> Walk(s, ROOT, Split(to)) == plan.taken)
  }

  /** The checks of a rename hand on a plan about the objects the paths name, or find that both
      paths name one object, or answer an error. They change no object. */
  lemma PlanIsWell(w: World, from: string, to: string)
    requires BaseOk(w) && Proper(from) && Proper(to)
    ensures var pl := PlanRename(w, from, to); var s := w.m.dev.store;
      && Quiet(w, pl.w) && pl.w.m.dev.store == s
      && (pl.r.Success? ==> WellPlanned(pl.w, pl.r.value) && NamedBy(s, pl.r.value, from, to))
      && (pl.r == Failure(0) ==>
            Walk(s, ROOT, Split(from)).Some? && Walk(s, ROOT, Split(to)) == Walk(s, ROOT, Split(from)))
  {
    hide Resolve, Walk, LookupFrom, SplitParent, InFolder, BaseOk, Quiet, OnlyListed, WellPlanned;
    var a := Resolve(w, from);
    ResolveOnce(w, from);
    var b := Resolve(a.w, SplitParent(from).0);
    ResolveOnce(a.w, SplitParent(from).0);
    QuietInTurn(w, a.w, b.w);
    SourceIsInFolder(w, from);
    var c := Resolve(b.w, SplitParent(to).0);
    ResolveOnce(b.w, SplitParent(to).0);
    QuietInTurn(w, b.w, c.w);
    var d := Resolve(c.w, to);
    ResolveOnce(c.w, to);
    QuietInTurn(w, c.w, d.w);
    SameStore(w, a.w);
    SameStore(a.w, b.w);
    SameStore(b.w, c.w);
    SameStore(c.w, d.w);
    if PlanRename(w, from, to).r.Success? {
      var plan := PlanRename(w, from, to).r.value;
      InFolderStays(b.w, c.w, plan.h, plan.oldParent);
      InFolderStays(c.w, d.w, plan.h, plan.oldParent);
      if plan.taken.Some? {
        FolderOfResolved(d.w, to, plan.taken.value, plan.newParent);
      }
      InFolderEntry(d.w, plan.h, plan.oldParent);
      PlannedWell(d.w, plan);
    }
  }

  lemma SameStore(w: World, w': World)
    requires OnlyListed(w, w')
    ensures w'.m.dev.store == w.m.dev.store
  {
  }

  lemma PlannedWell(w: World, plan: Plan)
    requires InFolder(w.tree, w.m.dev.store, plan.h, plan.oldParent)
    requires plan.h in w.tree.entries && w.tree.entries[plan.h] == EntryOf(w.m.dev.store, plan.h)
    requires plan.taken.Some? ==>
      plan.taken.value != plan.h && InFolder(w.tree, w.m.dev.store, plan.taken.value, plan.newParent)
    ensures WellPlanned(w, plan)
  {
  }

  // ----- the steps -----

  /** Part of a rename: the listings of `stale` may be wrong, and `moved` may have moved. */
  ghost predicate Renamed(w: World, w': World, stale: set<Handle>, moved: set<Handle>) {
    && BaseBut(w', stale) && Onward(w.m, w'.m, moved)
    && w'.pending == w.pending && HostKeeps(w.host, w'.host, {})
  }

  lemma StepRenames(w: World, w1: World, w2: World, stale: set<Handle>, moved: set<Handle>,
                    touched: set<Handle>, more: set<Handle>)
    requires Renamed(w, w1, stale, moved) && Steps(w1.m, w2.m, touched, more) && w2 == w1.(m := w2.m)
    ensures Renamed(w, w2, stale + touched, moved + more)
  {
    StepLeavesStale(w1, w2, stale, touched, more);
    StepIsOnward(w1.m, w2.m, touched, more);
    OnwardInTurn(w.m, w1.m, w2.m, moved, more);
    hide BaseBut, Onward, Steps;
  }

  lemma ForgetRenames(w: World, w1: World, stale: set<Handle>, moved: set<Handle>, folder: Handle)
    requires Renamed(w, w1, stale, moved)
    ensures Renamed(w, Forgot(w1, folder), stale - {folder}, moved)
  {
    ForgetIsCoherent(w1.tree, w1.m.dev.store, stale, folder);
    hide CoherentBut, Onward;
  }

  /** Two stores that differ at most in names. */
  ghost predicate OnlyNames(s: Store, s': Store) {
    forall k: Handle :: (k in s'.objects <==> k in s.objects)
      && (k in s.objects ==> s'.objects[k] == s.objects[k].(name := s'.objects[k].name))
  }

  lemma SetAsideNames(w: World, plan: Plan)
    ensures OnlyNames(w.m.dev.store, SetAside(w, plan).w.m.dev.store)
    ensures SameBut(w.tree, SetAside(w, plan).w.tree, plan.newParent)
  {
    hide AsideName;
  }

  lemma TakeNameNamesOnly(w: World, plan: Plan)
    ensures OnlyNames(w.m.dev.store, TakeName(w, plan).w.m.dev.store)
  {
    var t := RenameObject(w.m, plan.h, plan.newName);
    RenameOnlyNames(w.m, plan.h, plan.newName);
    if plan.taken.Some? {
      RenameOnlyNames(t.m, plan.taken.value, plan.newName);
    }
    hide RenameObject;
  }

  /** A tree that differs at most in the listing of one folder. */
  ghost predicate SameBut(t: TreeState, t': TreeState, folder: Handle) {
    forall p :: p != folder ==>
      && (p in t'.listed <==> p in t.listed)
      && (p in t'.children <==> p in t.children)
      && (p in t.children ==> t'.children[p] == t.children[p])
  }

  lemma TakeNameSameTree(w: World, plan: Plan)
    ensures SameBut(w.tree, TakeName(w, plan).w.tree, plan.newParent)
  {
    hide RenameObject;
  }

  lemma NamesKeepFolder(s: Store, s': Store, h: Handle)
    requires OnlyNames(s, s')
    ensures FolderOf(s', h) == FolderOf(s, h)
  {
  }

  lemma SetAsideRenames(w: World, plan: Plan)
    requires BaseOk(w) && WellPlanned(w, plan)
    ensures Renamed(w, SetAside(w, plan).w, {}, {})
  {
    hide BaseBut, AsideName, RenameObject, Steps, Onward;
    StaysQuiet(w, w);
    if plan.taken.Some? {
      var t := plan.taken.value;
      var w1 := w.(host := Host.Numbered(w.host));
      var aside := AsideName(plan.newName, w.host.count);
      StaysQuiet(w, w1);
      OkStore(w);
      RenameSteps(w.m, t, aside);
      var u := RenameObject(w1.m, t, aside);
      var w2 := w1.(m := u.m);
      var touched := if u.ok then FolderOf(w.m.dev.store, t) else {};
      StepRenames(w, w1, w2, {}, {}, touched, {});
      assert {} + touched == touched;
      var none: set<Handle> := {};
      assert none + none == none;
      if u.ok {
        FolderIs(w.m.dev.store, t);
        ForgetRenames(w, w2, touched, {}, plan.newParent);
        assert touched - {plan.newParent} == {};
      }
    }
  }

  /** The folders a move changes, and the object it moves. */
  function Between(plan: Plan): set<Handle> {
    if plan.newParent == plan.oldParent then {} else {plan.oldParent, plan.newParent}
  }

  function Mover(plan: Plan): set<Handle> {
    if plan.newParent == plan.oldParent then {} else {plan.h}
  }

  lemma MoveRenames(w: World, w1: World, plan: Plan)
    requires Renamed(w, w1, {}, {}) && FolderOf(w1.m.dev.store, plan.h) == {plan.oldParent}
    ensures var b := MoveOver(w1, plan);
      if b.rc == 0 then Renamed(w, b.w, Between(plan), Mover(plan)) else Renamed(w, b.w, {}, {})
  {
    hide BaseBut, MoveObject, Steps, Onward, FolderOf;
    if plan.newParent != plan.oldParent && w1.m.canMove {
      OkStoreBut(w1, {});
      MoveSteps(w1.m, plan.h, plan.newParent);
      var t := MoveObject(w1.m, plan.h, plan.newParent);
      var w2 := w1.(m := t.m);
      var none: set<Handle> := {};
      var touched := if t.ok then FolderOf(w1.m.dev.store, plan.h) + {plan.newParent} else none;
      var moved := if t.ok then {plan.h} else none;
      StepRenames(w, w1, w2, none, none, touched, moved);
      assert none + touched == touched && none + moved == moved;
      assert t.ok ==> touched == Between(plan);
    }
  }

  lemma OkStoreBut(w: World, stale: set<Handle>)
    requires BaseBut(w, stale)
    ensures WfStore(w.m.dev.store)
  {
  }

  /** A rename in the new folder, of the source or of the target. */
  lemma NameStep(w: World, w1: World, stale: set<Handle>, moved: set<Handle>, k: Handle, name: string,
                 folder: Handle)
    requires Renamed(w, w1, stale, moved) && FolderOf(w1.m.dev.store, k) <= {folder}
    ensures var t := RenameObject(w1.m, k, name); var w2 := w1.(m := t.m);
      && Renamed(w, w2, stale + {folder}, moved)
      && OnlyNames(w1.m.dev.store, w2.m.dev.store)
      && (!t.ok ==> Renamed(w, w2, stale, moved))
  {
    OkStoreBut(w1, stale);
    RenameSteps(w1.m, k, name);
    var t := RenameObject(w1.m, k, name);
    var w2 := w1.(m := t.m);
    hide BaseBut, Steps, Onward, RenameObject, FolderOf;
    var none: set<Handle> := {};
    var touched := if t.ok then FolderOf(w1.m.dev.store, k) else none;
    StepRenames(w, w1, w2, stale, moved, touched, none);
    assert moved + none == moved && stale + none == stale;
    StaleAtMost(w, w2, stale + touched, stale + {folder}, moved);
    RenameOnlyNames(w1.m, k, name);
  }

  lemma RenameOnlyNames(m: MtpState, k: Handle, name: string)
    ensures OnlyNames(m.dev.store, RenameObject(m, k, name).m.dev.store)
  {
  }

  lemma StaleAtMost(w: World, w': World, stale: set<Handle>, more: set<Handle>, moved: set<Handle>)
    requires Renamed(w, w', stale, moved) && stale <= more
    ensures Renamed(w, w', more, moved)
  {
    hide Remembers, ListingHolds, ReadAhead.CacheHolds, Readable, Onward;
  }

  lemma NameRenames(w: World, w2: World, plan: Plan)
    requires Renamed(w, w2, Between(plan), Mover(plan))
    requires FolderOf(w2.m.dev.store, plan.h) <= {plan.newParent}
    requires plan.taken.Some? ==> FolderOf(w2.m.dev.store, plan.taken.value) <= {plan.newParent}
    ensures var c := TakeName(w2, plan);
      if c.rc == 0 then Renamed(w, c.w, {plan.oldParent, plan.newParent}, Mover(plan))
      else if plan.newParent == plan.oldParent then Renamed(w, c.w, {}, Mover(plan))
      else true
  {
    hide RenameObject, Renamed, OnlyNames, Mover, FolderOf;
    var stale := Between(plan);
    var both := {plan.oldParent, plan.newParent};
    assert stale + {plan.newParent} <= both;
    if OldName(w2.tree, plan.h) == plan.newName {
      StaleAtMost(w, w2, stale, both, Mover(plan));
    } else if w2.m.canRename {
      var t := RenameObject(w2.m, plan.h, plan.newName);
      var w3 := w2.(m := t.m);
      NameStep(w, w2, stale, Mover(plan), plan.h, plan.newName, plan.newParent);
      if t.ok {
        StaleAtMost(w, w3, stale + {plan.newParent}, both, Mover(plan));
      } else if plan.taken.Some? {
        var k := plan.taken.value;
        NamesKeepFolder(w2.m.dev.store, w3.m.dev.store, k);
        NameStep(w, w3, stale, Mover(plan), k, plan.newName, plan.newParent);
        var w4 := w3.(m := RenameObject(w3.m, k, plan.newName).m);
        ForgetRenames(w, w4, stale + {plan.newParent}, Mover(plan), plan.newParent);
        assert plan.newParent == plan.oldParent ==> stale + {plan.newParent} - {plan.newParent} == {};
      } else {
        ForgetRenames(w, w3, stale, Mover(plan), plan.newParent);
        assert plan.newParent == plan.oldParent ==> stale - {plan.newParent} == {};
      }
    }
  }

  lemma ClearRenames(w: World, w3: World, plan: Plan)
    requires Renamed(w, w3, {plan.oldParent, plan.newParent}, Mover(plan))
    requires plan.taken.Some? ==> FolderOf(w3.m.dev.store, plan.taken.value) <= {plan.newParent}
    ensures Renamed(w, ClearAside(w3, plan), {}, Mover(plan))
  {
    var both := {plan.oldParent, plan.newParent};
    var w4 := if plan.taken.Some? then w3.(m := DeleteObject(w3.m, plan.taken.value).m) else w3;
    if plan.taken.Some? {
      OkStoreBut(w3, both);
      DeleteSteps(w3.m, plan.taken.value);
      hide BaseBut, Steps, Onward, DeleteObject, FolderOf, Mover;
      var t := DeleteObject(w3.m, plan.taken.value);
      var none: set<Handle> := {};
      var touched := if t.ok then FolderOf(w3.m.dev.store, plan.taken.value) else none;
      StepRenames(w, w3, w4, both, Mover(plan), touched, none);
      assert both + touched == both && Mover(plan) + none == Mover(plan);
    }
    hide Renamed, Mover;
    ForgetRenames(w, w4, both, Mover(plan), plan.oldParent);
    ForgetRenames(w, Forgot(w4, plan.oldParent), both - {plan.oldParent}, Mover(plan), plan.newParent);
    assert both - {plan.oldParent} - {plan.newParent} == {};
  }

  // ----- the whole rename -----

  /** A move to another folder goes, and the new name after it does not. */
  predicate Strands(w: World, plan: Plan) {
    && plan.newParent != plan.oldParent
    && RenameSafety.AsideGoes(w, plan) && RenameSafety.MoveGoes(w, plan) && !RenameSafety.NameGoes(w, plan)
  }

  /** The same, read from what the steps answer. */
  predicate HalfDone(w: World, plan: Plan) {
    var a := SetAside(w, plan);
    var b := MoveOver(a.w, plan);
    plan.newParent != plan.oldParent && a.rc == 0 && b.rc == 0 && TakeName(b.w, plan).rc != 0
  }

  lemma StrandsIsHalfDone(w: World, plan: Plan)
    requires WellPlanned(w, plan)
    ensures Strands(w, plan) <==> HalfDone(w, plan)
  {
    RenameSafety.StepsGo(w, plan);
    hide SetAside, MoveOver, TakeName, RenameSafety.AsideGoes, RenameSafety.MoveGoes, RenameSafety.NameGoes;
  }

  /** Where the two objects are once the target is aside and the source has moved. */
  lemma MovedFolders(w: World, plan: Plan)
    requires WellPlanned(w, plan)
    ensures var a := SetAside(w, plan).w.m.dev.store;
      && FolderOf(a, plan.h) == {plan.oldParent}
      && (plan.taken.Some? ==> FolderOf(a, plan.taken.value) == {plan.newParent})
    ensures var b := MoveOver(SetAside(w, plan).w, plan); var s := b.w.m.dev.store;
      && (b.rc == 0 ==> FolderOf(s, plan.h) == {plan.newParent})
      && (plan.taken.Some? ==> FolderOf(s, plan.taken.value) == {plan.newParent})
      && (plan.oldParent in w.m.dev.store.objects ==> plan.oldParent in s.objects)
      && b.w.tree == SetAside(w, plan).w.tree
  {
    var a := SetAside(w, plan).w;
    SetAsideNames(w, plan);
    NamesKeepFolder(w.m.dev.store, a.m.dev.store, plan.h);
    if plan.taken.Some? {
      NamesKeepFolder(w.m.dev.store, a.m.dev.store, plan.taken.value);
    }
    hide SetAside;
    RenameSafety.MoveOverMoves(a, plan);
    hide MoveOver;
  }

  lemma CarryOutRenames(w: World, plan: Plan)
    requires BaseOk(w) && WellPlanned(w, plan) && !HalfDone(w, plan)
    ensures exists moved :: moved <= {plan.h} && Renamed(w, CarryOut(w, plan).w, {}, moved)
  {
    hide BaseOk, SetAside, MoveOver, TakeName, ClearAside, Renamed, WellPlanned, FolderOf;
    var none: set<Handle> := {};
    var a := SetAside(w, plan);
    var b := MoveOver(a.w, plan);
    var c := TakeName(b.w, plan);
    SetAsideRenames(w, plan);
    MovedFolders(w, plan);
    assert none <= {plan.h};
    if a.rc == 0 {
      MoveRenames(w, a.w, plan);
      if b.rc == 0 {
        NameRenames(w, b.w, plan);
        if c.rc == 0 {
          ClearFolders(b.w, plan);
          ClearRenames(w, c.w, plan);
        }
        assert Mover(plan) <= {plan.h};
      }
    }
  }

  lemma ClearFolders(w: World, plan: Plan)
    requires plan.taken.Some? ==> FolderOf(w.m.dev.store, plan.taken.value) <= {plan.newParent}
    ensures plan.taken.Some? ==> FolderOf(TakeName(w, plan).w.m.dev.store, plan.taken.value) <= {plan.newParent}
  {
    TakeNameNamesOnly(w, plan);
    if plan.taken.Some? {
      NamesKeepFolder(w.m.dev.store, TakeName(w, plan).w.m.dev.store, plan.taken.value);
    }
    hide TakeName;
  }

  /** A stranded rename leaves the listing of the old folder, with the object that left it. */
  lemma StrandedIsStale(w: World, plan: Plan)
    requires BaseOk(w) && WellPlanned(w, plan) && HalfDone(w, plan)
    ensures !BaseOk(CarryOut(w, plan).w)
  {
    var a := SetAside(w, plan);
    var b := MoveOver(a.w, plan);
    var c := TakeName(b.w, plan);
    MovedFolders(w, plan);
    SetAsideNames(w, plan);
    TakeNameNamesOnly(b.w, plan);
    TakeNameSameTree(b.w, plan);
    NamesKeepFolder(b.w.m.dev.store, c.w.m.dev.store, plan.h);
    assert InFolder(w.tree, w.m.dev.store, plan.h, plan.oldParent);
    assert ListingHolds(w.tree, w.m.dev.store, plan.oldParent);
    hide SetAside, MoveOver, TakeName;
    KidsAreThere(c.w.m.dev.store.objects, c.w.m.dev.store.order, plan.oldParent);
    assert plan.h in c.w.tree.children[plan.oldParent];
    assert !ListingHolds(c.w.tree, c.w.m.dev.store, plan.oldParent);
    FolderStays(c.w, plan.oldParent);
  }

  lemma FolderStays(w: World, folder: Handle)
    requires folder in w.tree.listed && (folder == ROOT || folder in w.m.dev.store.objects)
    ensures BaseOk(w) ==> IsFolder(w.m.dev.store, folder)
  {
  }

  /** A rename that moves no object an open write replaces. */
  predicate Tame(w: World, from: string, to: string) {
    && Proper(from) && Proper(to)
    && (PlanRename(w, from, to).r.Success? ==>
          forall q <- w.pending :: w.pending[q].replaced != Some(PlanRename(w, from, to).r.value.h))
  }

  predicate RenameStrands(w: World, from: string, to: string) {
    PlanRename(w, from, to).r.Success? && Strands(PlanRename(w, from, to).w, PlanRename(w, from, to).r.value)
  }

  lemma MovedIsGood(w: World, w': World, moved: set<Handle>)
    requires Good(w) && Renamed(w, w', {}, moved)
    requires forall q <- w.pending :: w.pending[q].replaced.Some? ==> w.pending[q].replaced.value !in moved
    ensures Good(w')
  {
    forall q | q in w'.pending
      ensures EntryOk(w', w'.pending[q])
    {
      EntryStays(w, w', w.pending[q], {}, moved);
    }
    hide BaseBut, Onward, EntryOk, HostKeeps;
  }

  /** The index survives a rename exactly when the rename strands nothing. */
  lemma RenameKeepsIndexIff(w: World, from: string, to: string)
    requires Good(w) && Tame(w, from, to)
    ensures Good(Mount.Rename(w, from, to).w) <==> !RenameStrands(w, from, to)
  {
    var pl := PlanRename(w, from, to);
    PlanIsWell(w, from, to);
    QuietIsGood(w, pl.w);
    if pl.r.Success? {
      var plan := pl.r.value;
      assert pl.w.pending == w.pending;
      StrandsIsHalfDone(pl.w, plan);
      hide PlanRename, CarryOut, Strands, HalfDone, WellPlanned, BaseOk, Renamed, SpoolsApart, EntryOk,
           Quiet, Proper, NamedBy, Walk;
      if HalfDone(pl.w, plan) {
        StrandedIsStale(pl.w, plan);
      } else {
        CarryOutRenames(pl.w, plan);
        var moved :| moved <= {plan.h} && Renamed(pl.w, CarryOut(pl.w, plan).w, {}, moved);
        MovedIsGood(pl.w, CarryOut(pl.w, plan).w, moved);
      }
    }
  }

  /** A rename leaves every entry and every spool alone. */
  lemma RenameKeepsEntries(w: World, from: string, to: string)
    requires Good(w) && Tame(w, from, to) && !RenameStrands(w, from, to)
    ensures var w' := Mount.Rename(w, from, to).w;
      && w'.pending == w.pending && HostKeeps(w.host, w'.host, {})
      && (ReadAhead.Generous(w.m.dev) ==> ReadAhead.Generous(w'.m.dev))
      && Endures(w.m.dev.store, w'.m.dev.store)
  {
    var pl := PlanRename(w, from, to);
    PlanIsWell(w, from, to);
    if pl.r.Success? {
      StrandsIsHalfDone(pl.w, pl.r.value);
      hide PlanRename, CarryOut, Strands, HalfDone, WellPlanned, BaseOk, SpoolsApart, EntryOk, Proper,
           Lasts, ReadAhead.Generous, NamedBy, Walk;
      CarryOutRenames(pl.w, pl.r.value);
    }
  }
}
