/** The rename callback as its caller sees it: which objects its two paths name, what it leaves
    of both, and when it overlooks a file it should replace. `crates/mtpfs/src/main.rs`, lines
    842 to 950. */
module RenameCall {
  import opened Wrappers
  import opened PathTree
  import opened Device
  import opened Backend
  import opened World
  import opened Index
  import opened Upkeep
  import opened Callbacks
  import opened Walks
  import opened RenameIndex
  import opened RenameSafety
  import Mount = World
  import AsTold
  import SwapSafety

  // ----- whether the target is seen -----

  lemma {:induction false} UnlistedAppend(t: TreeState, s: Store, h: Handle, parts: seq<string>,
                                          name: string, k: Handle)
    requires Walk(s, h, parts) == Some(k) && IsFolder(s, k) && Unlisted(t, s, h, parts) == {}
    ensures Unlisted(t, s, h, parts + [name]) == if k in t.listed then {} else {k}
    decreases |parts|
  {
    if parts == [] {
      assert parts + [name] == [name];
    } else {
      assert (parts + [name])[1..] == parts[1..] + [name];
      UnlistedAppend(t, s, FirstKid(s.objects, Kids(s, h), parts[0]).value, parts[1..], name, k);
    }
  }

  /** With the folder of a path found, and an object under the path, `resolve` gives that object
      exactly when the folder is listed, or the device answers the one listing it takes. */
  lemma ResolveNextIff(w: World, path: string, folder: Handle)
    requires BaseOk(w) && Proper(path)
    requires LookupFrom(w.tree, ROOT, Split(SplitParent(path).0)) == Found(folder)
    requires Walk(w.m.dev.store, ROOT, Split(path)).Some?
    ensures Resolve(w, path).h == Walk(w.m.dev.store, ROOT, Split(path))
      <==> folder in w.tree.listed || Goes(w.m.dev, 0)
  {
    var s := w.m.dev.store;
    var dir, name := SplitParent(path).0, SplitParent(path).1;
    var parts := Split(path);
    SplitParentSplits(path);
    LookupFollowsWalk(w.tree, s, ROOT, Split(dir));
    LookupFollowsWalk(w.tree, s, ROOT, parts);
    WalkAppend(s, ROOT, Split(dir), name);
    UnlistedAppend(w.tree, s, ROOT, Split(dir), name, folder);
    OkIndex(w);
    ListStep(w, folder);
    var w1 := Listed(w, Device.List(w.m.dev, folder), folder);
    hide SplitParent, Split, Walk, Unlisted, LookupFrom, BaseOk, Device.List, Listed, OnlyListed;
    if folder !in w.tree.listed {
      assert LookupFrom(w.tree, ROOT, parts) == NeedListing(folder);
      ListGoes(w.m.dev, folder);
      if Goes(w.m.dev, 0) {
        ListingShrinksUnlisted(w.tree, w1.tree, s, folder, ROOT, parts);
        SameStoreListed(w, folder);
        LookupFollowsWalk(w1.tree, s, ROOT, parts);
        assert LookupFrom(w1.tree, ROOT, parts).Found?;
      }
    }
  }

  lemma ListGoes(d: Dev, folder: Handle)
    requires IsFolder(d.store, folder)
    ensures Device.List(d, folder).verdict.Done? <==> Goes(d, 0)
  {
  }

  lemma SameStoreListed(w: World, folder: Handle)
    ensures Listed(w, Device.List(w.m.dev, folder), folder).m.dev.store == w.m.dev.store
  {
  }

  /** The mount when a rename looks for its target. */
  function BeforeTarget(w: World, from: string, to: string): World {
    var a := Resolve(w, from).w;
    var b := Resolve(a, SplitParent(from).0).w;
    Resolve(b, SplitParent(to).0).w
  }

  /** The new folder is listed by then, or the device answers its listing. */
  predicate Shown(w: World, from: string, to: string) {
    var c := BeforeTarget(w, from, to);
    match Walk(w.m.dev.store, ROOT, Split(SplitParent(to).0))
    case Some(folder) => folder in c.tree.listed || Goes(c.m.dev, 0)
    case None => false
  }

  lemma BeforeTargetIs(w: World, from: string, to: string)
    requires BaseOk(w) && PlanRename(w, from, to).r.Success?
    ensures var c := BeforeTarget(w, from, to); var plan := PlanRename(w, from, to).r.value;
      && BaseOk(c) && c.m.dev.store == w.m.dev.store
      && LookupFrom(c.tree, ROOT, Split(SplitParent(to).0)) == Found(plan.newParent)
      && Walk(w.m.dev.store, ROOT, Split(SplitParent(to).0)) == Some(plan.newParent)
      && plan.taken == Resolve(c, to).h
  {
    hide Resolve, Walk, LookupFrom, SplitParent, BaseOk, Quiet, OnlyListed;
    var a := Resolve(w, from);
    ResolveOnce(w, from);
    var b := Resolve(a.w, SplitParent(from).0);
    ResolveOnce(a.w, SplitParent(from).0);
    var c := Resolve(b.w, SplitParent(to).0);
    ResolveOnce(b.w, SplitParent(to).0);
    SameStore(w, a.w);
    SameStore(a.w, b.w);
    SameStore(b.w, c.w);
  }

  /** A rename sees the object that its new path names exactly when the new folder is shown. */
  lemma TargetSeenIff(w: World, from: string, to: string)
    requires BaseOk(w) && Proper(to) && PlanRename(w, from, to).r.Success?
    requires Walk(w.m.dev.store, ROOT, Split(to)).Some?
    ensures PlanRename(w, from, to).r.value.taken == Walk(w.m.dev.store, ROOT, Split(to)) <==> Shown(w, from, to)
  {
    BeforeTargetIs(w, from, to);
    ResolveNextIff(BeforeTarget(w, from, to), to, PlanRename(w, from, to).r.value.newParent);
    hide PlanRename, BeforeTarget, Resolve, Walk, LookupFrom, SplitParent, BaseOk, Split, Goes;
  }

  /** A new folder that is listed before the call is shown. */
  lemma ListedIsShown(w: World, from: string, to: string)
    requires BaseOk(w) && PlanRename(w, from, to).r.Success?
    requires PlanRename(w, from, to).r.value.newParent in w.tree.listed
    ensures Shown(w, from, to)
  {
    BeforeTargetIs(w, from, to);
    hide Walk, LookupFrom, SplitParent, BaseOk, Split, Goes, Resolve;
    var a := Resolve(w, from).w;
    var b := Resolve(a, SplitParent(from).0).w;
    ResolveOnce(w, from);
    ResolveOnce(a, SplitParent(from).0);
    ResolveOnce(b, SplitParent(to).0);
  }

  // ----- no request loses bytes -----

  /** Both files of a rename, whatever its plan saw of them: the source is there, and the object
      the new path names too, until the source is in its place. */
  ghost predicate BothThere(before: Store, s: Store, x: Renaming, target: Option<Handle>) {
    && SourceThere(s, x)
    && (target.Some? && target.value in before.objects && target.value != x.plan.h ==>
          InPlace(s, x) || (target.value in s.objects && s.objects[target.value].data == before.objects[target.value].data))
  }

  ghost predicate Still(s: Store, t: Handle, o: Object) {
    t in s.objects && s.objects[t] == o
  }

  /** A request for one object leaves the others still. */
  lemma OtherStill(m: MtpState, h: Handle, name: string, parent: Handle, t: Handle)
    requires t != h && t in m.dev.store.objects
    ensures var P := (s: Store) => Still(s, t, m.dev.store.objects[t]);
      && SwapSafety.Throughout(m.dev, RenameObject(m, h, name).m.dev, P) && P(RenameObject(m, h, name).m.dev.store)
      && SwapSafety.Throughout(m.dev, MoveObject(m, h, parent).m.dev, P) && P(MoveObject(m, h, parent).m.dev.store)
  {
    var P := (s: Store) => Still(s, t, m.dev.store.objects[t]);
    SwapSafety.OneEvent(m.dev, RenameObject(m, h, name).m.dev, P);
    SwapSafety.OneEvent(m.dev, MoveObject(m, h, parent).m.dev, P);
  }

  /** A rename without a target asks for nothing but its source. */
  lemma OnlySource(w: World, plan: Plan, t: Handle)
    requires plan.taken.None? && t != plan.h && t in w.m.dev.store.objects
    ensures SwapSafety.Throughout(w.m.dev, CarryOut(w, plan).w.m.dev, s => Still(s, t, w.m.dev.store.objects[t]))
  {
    var P := (s: Store) => Still(s, t, w.m.dev.store.objects[t]);
    var b := MoveOver(w, plan);
    SwapSafety.NoEvent(w.m.dev, P);
    OtherStill(w.m, plan.h, "", plan.newParent, t);
    SwapSafety.NoEvent(b.w.m.dev, P);
    assert Still(w.m.dev.store, t, w.m.dev.store.objects[t]);
    hide RenameObject, MoveObject, SwapSafety.Throughout;
    OtherStill(b.w.m, plan.h, plan.newName, ROOT, t);
    var c := TakeName(b.w, plan);
    SwapSafety.InTurn(w.m.dev, b.w.m.dev, c.w.m.dev, P);
  }

  lemma BothAtOnce(before: Store, s: Store, x: Renaming, target: Option<Handle>)
    requires NothingLost(s, x) && x.plan.taken.Some? == x.target.Some?
    requires x.plan.taken.Some? ==>
      target == x.plan.taken && target.value in before.objects && x.target.value == before.objects[target.value]
    requires x.plan.taken.None? && target.Some? && target.value in before.objects && target.value != x.plan.h ==>
      Still(s, target.value, before.objects[target.value])
    ensures BothThere(before, s, x, target)
  {
    hide SourceThere, InPlace;
  }

  /** The rename law for the call itself: whatever two paths it is given, after each request the
      file its old path names is there with its bytes, and so is the file its new path names,
      seen or not, until the first carries the new name in the new folder. */
  lemma RenameCallLosesNothing(w: World, from: string, to: string)
    requires BaseOk(w) && Proper(from) && Proper(to) && PlanRename(w, from, to).r.Success?
    ensures var pl := PlanRename(w, from, to);
      WellPlanned(pl.w, pl.r.value) && NamedBy(w.m.dev.store, pl.r.value, from, to)
    ensures var pl := PlanRename(w, from, to);
      var x := RenamingOf(pl.w, pl.r.value); var target := Walk(w.m.dev.store, ROOT, Split(to));
      SwapSafety.Throughout(pl.w.m.dev, Mount.Rename(w, from, to).w.m.dev, s => BothThere(w.m.dev.store, s, x, target))
  {
    var pl := PlanRename(w, from, to);
    PlanIsWell(w, from, to);
    var plan := pl.r.value;
    RenameLosesNothing(pl.w, plan);
    var x := RenamingOf(pl.w, plan);
    var target := Walk(w.m.dev.store, ROOT, Split(to));
    var s := w.m.dev.store;
    var before, after := pl.w.m.dev, CarryOut(pl.w, plan).w.m.dev;
    hide PlanRename, CarryOut, NothingLost, BothThere, Walk, Split, Proper, Still;
    if plan.taken.None? && target.Some? && target.value in s.objects && target.value != plan.h {
      OnlySource(pl.w, plan, target.value);
    }
    forall i | |before.log| <= i < |after.log|
      ensures BothThere(s, after.log[i].after, x, target)
    {
      BothAtOnce(s, after.log[i].after, x, target);
    }
    if BothThere(s, before.store, x, target) {
      StartsWhole(pl.w, plan);
      BothAtOnce(s, after.store, x, target);
    }
  }

  // ----- what an answer of 0 means -----

  /** What an answer of 0 leaves: nothing changed and both paths name one object; or the object
      the old path named is the one that carries the new name in the folder the new path names,
      and what the rename took for its target is gone or stands aside. */
  ghost predicate CallDone(w: World, from: string, to: string) {
    var pl := PlanRename(w, from, to); var s := w.m.dev.store; var after := Mount.Rename(w, from, to).w.m.dev;
    if pl.r.Failure? then
      && after.store.objects == s.objects && after.store.order == s.order
      && Walk(s, ROOT, Split(from)).Some? && Walk(s, ROOT, Split(to)) == Walk(s, ROOT, Split(from))
    else
      && pl.w.m.dev.store == s && WellPlanned(pl.w, pl.r.value) && NamedBy(s, pl.r.value, from, to)
      && IsFolder(s, pl.r.value.newParent)
      && Replaced(pl.w.m.dev, after, RenamingOf(pl.w, pl.r.value))
  }

  lemma RenameCallOutcome(w: World, from: string, to: string)
    requires BaseOk(w) && Proper(from) && Proper(to) && Mount.Rename(w, from, to).rc == 0
    ensures CallDone(w, from, to)
  {
    var pl := PlanRename(w, from, to);
    PlanIsWell(w, from, to);
    if pl.r.Success? {
      RenameOutcome(pl.w, pl.r.value);
      RenameAnswersIff(pl.w, pl.r.value);
      NewFolderIs(pl.w, pl.r.value);
    }
    hide PlanRename, CarryOut, Replaced, Walk, Split, Proper, NamedBy, WellPlanned, AsideGoes, NameGoes;
  }

  lemma NewFolderIs(w: World, plan: Plan)
    requires WellPlanned(w, plan)
    ensures MoveGoes(w, plan) ==> IsFolder(w.m.dev.store, plan.newParent)
  {
  }

  /** The object `x` stands where it stood, as it was. */
  ghost predicate Untouched(s: Store, s': Store, x: Handle) {
    x in s.objects && x in s'.objects && s'.objects[x] == s.objects[x]
  }

  /** A rename that answers 0 leaves the file of its new path as it was exactly when the new
      folder was not shown to it; and else that file is gone, or stands aside only because the
      last request, its removal, failed. */
  lemma OldTargetGoesIff(w: World, from: string, to: string, t: Handle)
    requires BaseOk(w) && Proper(from) && Proper(to) && Mount.Rename(w, from, to).rc == 0
    requires Walk(w.m.dev.store, ROOT, Split(to)) == Some(t) && Walk(w.m.dev.store, ROOT, Split(from)) != Some(t)
    ensures PlanRename(w, from, to).r.Success?
    ensures var s := w.m.dev.store; var pl := PlanRename(w, from, to); var after := Mount.Rename(w, from, to).w.m.dev;
      && (Untouched(s, after.store, t) <==> !Shown(w, from, to))
      && (Shown(w, from, to) ==>
            t !in after.store.objects || SwapSafety.EndsInVain(pl.w.m.dev, after, CallDelete(t)))
  {
    RenameCallOutcome(w, from, to);
    TargetSeenIff(w, from, to);
    var pl := PlanRename(w, from, to);
    OkStore(w);
    LastPart(w.m.dev.store, to, t);
    ReplacedTarget(pl.w, pl.r.value, Mount.Rename(w, from, to).w.m.dev, t);
    hide PlanRename, CarryOut, Mount.Rename, Replaced, Walk, Split, Proper, Shown, WellPlanned, BaseOk;
  }

  lemma LastPart(s: Store, path: string, t: Handle)
    requires WfStore(s) && Proper(path) && Walk(s, ROOT, Split(path)) == Some(t)
    ensures t in s.objects && s.objects[t].name == SplitParent(path).1
  {
    SplitParentSplits(path);
    hide SplitParent, Walk;
    LastStep(s, Split(path), t);
  }

  /** What is left of an object that carries the new name: itself, when the plan missed it. */
  lemma ReplacedTarget(w: World, plan: Plan, after: Dev, t: Handle)
    requires Sensible(w, plan) && Replaced(w.m.dev, after, RenamingOf(w, plan))
    requires t in w.m.dev.store.objects && t != plan.h && w.m.dev.store.objects[t].name == plan.newName
    requires plan.taken.None? || plan.taken == Some(t)
    ensures Untouched(w.m.dev.store, after.store, t) <==> plan.taken.None?
    ensures plan.taken == Some(t) ==>
      t !in after.store.objects || SwapSafety.EndsInVain(w.m.dev, after, CallDelete(t))
  {
    AsideDiffers(plan.newName, w.host.count);
    hide AsideName, SwapSafety.EndsInVain;
  }

  /** An error of a rename leaves every object as it was exactly when its checks gave the error
      or the protocol took its steps back. */
  lemma CallErrorIsUndoneIff(w: World, from: string, to: string)
    requires BaseOk(w) && Proper(from) && Proper(to) && Mount.Rename(w, from, to).rc != 0
    ensures var pl := PlanRename(w, from, to);
      Mount.Rename(w, from, to).w.m.dev.store.objects == w.m.dev.store.objects
      <==> pl.r.Failure? || Undone(pl.w, pl.r.value)
  {
    PlanIsWell(w, from, to);
    OkStore(w);
    var pl := PlanRename(w, from, to);
    if pl.r.Success? {
      var plan := pl.r.value;
      if plan.taken.Some? {
        LastPart(w.m.dev.store, to, plan.taken.value);
      }
      hide PlanRename, CarryOut, Undone, Walk, Split, SplitParent, BaseOk, Proper;
      ErrorIsUndoneIff(pl.w, plan);
    }
  }

  // ----- where the new path leads -----

  /** One object rearranged, and perhaps another of its new folder gone or renamed. */
  ghost predicate Rearranged(s: Store, s': Store, h: Handle, taken: Option<Handle>, folder: Handle) {
    && s'.order == s.order
    && h in s.objects && h in s'.objects && s'.objects[h].parent == folder
    && (taken.Some? ==> taken.value in s.objects && s.objects[taken.value].parent == folder)
    && (taken.Some? && taken.value in s'.objects ==> s'.objects[taken.value].parent == folder)
    && (forall k: Handle :: k != h && taken != Some(k) ==>
          (k in s'.objects <==> k in s.objects) && (k in s.objects ==> s'.objects[k] == s.objects[k]))
  }

  /** A folder that is not below `h` is still where it was. */
  lemma FolderWalkSurvives(s: Store, s': Store, parts: seq<string>, h: Handle, taken: Option<Handle>,
                           folder: Handle)
    requires WfStore(s) && Rearranged(s, s', h, taken, folder) && Walk(s, ROOT, parts) == Some(folder)
    requires forall i :: 0 <= i <= |parts| ==> Walk(s, ROOT, parts[..i]) != Some(h)
    ensures Walk(s', ROOT, parts) == Some(folder)
  {
    forall i | 0 <= i < |parts|
      ensures Walk(s, ROOT, parts[..i]).Some? && SameStep(s, s', Walk(s, ROOT, parts[..i]).value, parts[i])
    {
      WalkPrefix(s, parts, i);
      WalkPrefix(s, parts, i + 1);
      var q := Walk(s, ROOT, parts[..i]).value;
      assert parts[..i + 1] == parts[..i] + [parts[i]];
      WalkAppend(s, ROOT, parts[..i], parts[i]);
      NotTheFolder(s, parts, i, taken, folder);
      StepSurvives(s, s', q, parts[i], h, taken, folder);
    }
    hide Walk, SameStep, Rearranged;
    WalkSurvives(s, s', parts);
  }

  /** No folder on the way to `folder` is that folder, or an object in it. */
  lemma NotTheFolder(s: Store, parts: seq<string>, i: nat, taken: Option<Handle>, folder: Handle)
    requires WfStore(s) && Walk(s, ROOT, parts) == Some(folder) && i < |parts| && Walk(s, ROOT, parts[..i]).Some?
    requires taken.Some? ==> taken.value in s.objects && s.objects[taken.value].parent == folder
    ensures Walk(s, ROOT, parts[..i]) != Some(folder) && Walk(s, ROOT, parts[..i]) != taken
  {
    hide Walk;
    if Walk(s, ROOT, parts[..i]) == Some(folder) {
      WalkIsUnique(s, parts, parts[..i], folder);
    }
    if Walk(s, ROOT, parts[..i]) == taken {
      RootIsNone(s, taken.value);
      LastOf(s, parts, i, taken.value, folder);
    }
  }

  lemma RootIsNone(s: Store, k: Handle)
    requires WfStore(s) && k in s.objects
    ensures k != ROOT && Walk(s, ROOT, []) != Some(k)
  {
  }

  lemma LastOf(s: Store, parts: seq<string>, i: nat, k: Handle, folder: Handle)
    requires WfStore(s) && Walk(s, ROOT, parts) == Some(folder) && i < |parts|
    requires k in s.objects && s.objects[k].parent == folder && Walk(s, ROOT, []) != Some(k)
    ensures Walk(s, ROOT, parts[..i]) != Some(k)
  {
    hide Walk;
    if Walk(s, ROOT, parts[..i]) == Some(k) {
      assert i > 0 by {
        assert parts[..0] == [];
      }
      LastStep(s, parts[..i], k);
      assert parts[..i][..i - 1] == parts[..i - 1];
      WalkIsUnique(s, parts, parts[..i - 1], folder);
    }
  }

  lemma StepSurvives(s: Store, s': Store, q: Handle, name: string, h: Handle, taken: Option<Handle>,
                     folder: Handle)
    requires Rearranged(s, s', h, taken, folder) && IsFolder(s, q) && q != folder && q != h && taken != Some(q)
    requires FirstKid(s.objects, Kids(s, q), name) != Some(h)
    ensures SameStep(s, s', q, name)
  {
    FirstKidStays(s.objects, s'.objects, s.order, q, name, h);
  }

  /** After a rename that answers 0, to a folder not below its source, the new path leads to the
      source exactly when, before the call, no object but the target the call took carried the
      new name in the new folder and stood before the source in the device's order. */
  lemma NewPathLeadsIff(w: World, from: string, to: string)
    requires BaseOk(w) && Proper(from) && Proper(to) && Mount.Rename(w, from, to).rc == 0
    requires PlanRename(w, from, to).r.Success? && !(Split(from) <= Split(SplitParent(to).0))
    ensures var s, s' := w.m.dev.store, Mount.Rename(w, from, to).w.m.dev.store;
      var plan := PlanRename(w, from, to).r.value;
      && Walk(s', ROOT, Split(SplitParent(to).0)) == Some(plan.newParent)
      && (Walk(s', ROOT, Split(to)) == Some(plan.h)
          <==> !NamedBefore(s.objects, s.order, plan.newParent, plan.newName, plan.h, plan.taken))
  {
    var s, s' := w.m.dev.store, Mount.Rename(w, from, to).w.m.dev.store;
    var pl := PlanRename(w, from, to);
    var plan := pl.r.value;
    RenameCallOutcome(w, from, to);
    OkStore(w);
    ReplacedRearranges(pl.w, plan, Mount.Rename(w, from, to).w.m.dev);
    ReplacedLeavesOne(pl.w, plan, Mount.Rename(w, from, to).w.m.dev);
    hide PlanRename, CarryOut, Mount.Rename, Replaced, Walk, Split, Proper, WellPlanned, BaseOk,
         SplitParent, CallDone, NamedBefore, OneGone;
    assert NamedBy(s, plan, from, to) && IsFolder(s, plan.newParent) by {
      DoneNames(w, from, to);
    }
    var parts := Split(SplitParent(to).0);
    NotBelow(s, from, parts, plan.h);
    FolderWalkSurvives(s, s', parts, plan.h, plan.taken, plan.newParent);
    SplitParentSplits(to);
    WalkAppend(s', ROOT, parts, plan.newName);
    FolderItself(s, s', parts, plan.h, plan.taken, plan.newParent);
    FirstKidIff(s'.objects, s'.order, plan.newParent, plan.newName, plan.h);
    NamedBeforeStays(s.objects, s'.objects, s.order, plan.newParent, plan.newName, plan.h, plan.taken);
  }

  /** The target a rename took carries the new name no more. */
  lemma ReplacedLeavesOne(w: World, plan: Plan, after: Dev)
    requires WellPlanned(w, plan) && Replaced(w.m.dev, after, RenamingOf(w, plan))
    ensures OneGone(w.m.dev.store.objects, after.store.objects, plan.newParent, plan.newName, plan.h, plan.taken)
  {
    AsideDiffers(plan.newName, w.host.count);
    hide AsideName, SwapSafety.EndsInVain;
  }

  lemma DoneNames(w: World, from: string, to: string)
    requires CallDone(w, from, to) && PlanRename(w, from, to).r.Success?
    ensures NamedBy(w.m.dev.store, PlanRename(w, from, to).r.value, from, to)
    ensures IsFolder(w.m.dev.store, PlanRename(w, from, to).r.value.newParent)
  {
  }

  lemma ReplacedRearranges(w: World, plan: Plan, after: Dev)
    requires WellPlanned(w, plan) && Replaced(w.m.dev, after, RenamingOf(w, plan))
    ensures Rearranged(w.m.dev.store, after.store, plan.h, plan.taken, plan.newParent)
    ensures after.store.objects[plan.h].name == plan.newName
    ensures after.store.objects[plan.h].isDir == w.m.dev.store.objects[plan.h].isDir
  {
    hide AsideName, SwapSafety.EndsInVain;
  }

  lemma NotBelow(s: Store, from: string, parts: seq<string>, h: Handle)
    requires WfStore(s) && Walk(s, ROOT, Split(from)) == Some(h) && !(Split(from) <= parts)
    ensures forall i :: 0 <= i <= |parts| ==> Walk(s, ROOT, parts[..i]) != Some(h)
  {
    hide Walk, Split;
    forall i | 0 <= i <= |parts|
      ensures Walk(s, ROOT, parts[..i]) != Some(h)
    {
      if Walk(s, ROOT, parts[..i]) == Some(h) {
        WalkIsUnique(s, Split(from), parts[..i], h);
      }
    }
  }

  lemma FolderItself(s: Store, s': Store, parts: seq<string>, h: Handle, taken: Option<Handle>,
                     folder: Handle)
    requires WfStore(s) && Rearranged(s, s', h, taken, folder) && IsFolder(s, folder)
    requires Walk(s, ROOT, parts) == Some(folder) && Walk(s, ROOT, parts[..|parts|]) != Some(h)
    ensures IsFolder(s', folder)
  {
    assert parts[..|parts|] == parts;
    if taken == Some(folder) {
      assert parts != [];
      LastStep(s, parts, folder);
      WalkIsUnique(s, parts, parts[..|parts| - 1], folder);
    }
    hide Walk;
  }

  // ----- runs of the call on two folders -----

  /** Folders "d" and "e", and a file "f" in each. */
  function TwoFolders(kept: Object, mover: Object): map<Handle, Object> {
    map[1 := Object(ROOT, "d", true, []), 2 := Object(ROOT, "e", true, []), 3 := kept, 4 := mover]
  }

  ghost predicate InTwoFolders(w: World, kept: Object, mover: Object) {
    && kept == Object(2, "f", false, kept.data) && mover == Object(1, "f", false, mover.data)
    && w.m.dev.store == Store(TwoFolders(kept, mover), [1, 2, 3, 4], 5)
    && |w.m.dev.script| == 2 && w.m.canMove && w.m.canRename
  }

  lemma ShortPaths()
    ensures Split("/d/f") == ["d", "f"] && Split("/e/f") == ["e", "f"] && Split("/e/g") == ["e", "g"]
    ensures SplitParent("/d/f") == ("/d", "f") && SplitParent("/e/f") == ("/e", "f")
    ensures SplitParent("/e/g") == ("/e", "g")
    ensures Split("/d") == ["d"] && Split("/e") == ["e"]
  {
    hide Split, SplitParent;
    TwoParts('d', 'f');
    TwoParts('e', 'f');
    TwoParts('e', 'g');
    OnePart('d');
    OnePart('e');
  }

  lemma OnePart(x: char)
    requires x != '/' && x != '.'
    ensures Split(['/', x]) == [[x]]
  {
    assert JoinPath([[x]]) == ['/', x];
    SplitUndoesJoin([[x]]);
    hide Split;
  }

  lemma TwoParts(x: char, y: char)
    requires x != '/' && y != '/' && x != '.' && y != '.'
    ensures Split(['/', x, '/', y]) == [[x], [y]]
    ensures SplitParent(['/', x, '/', y]) == (['/', x], [y])
  {
    var path := ['/', x, '/', y];
    assert JoinPath([[x], [y]]) == path by {
      assert JoinPath([[y]]) == ['/', y];
      assert [[x], [y]][1..] == [[y]];
    }
    SplitUndoesJoin([[x], [y]]);
    hide Split;
    assert path[..3] == ['/', x, '/'] && path[..2] == ['/', x] && path[3..] == [y];
    assert LastSlash(path[..3]) == Some(2);
  }

  /** The plan that the checks of a rename make of what the paths give. */
  lemma PlanOf(w: World, from: string, to: string, plan: Plan, w1: World)
    requires Resolve(w, from) == Resolved(w, Some(plan.h)) && plan.h != ROOT && SplitParent(to).1 == plan.newName
    requires Resolve(w, SplitParent(from).0) == Resolved(w, Some(plan.oldParent)) && plan.newName != ""
    requires Resolve(w, SplitParent(to).0) == Resolved(w, Some(plan.newParent))
    requires Resolve(w, to) == Resolved(w1, plan.taken) && plan.taken != Some(plan.h) && plan.taken != Some(ROOT)
    ensures PlanRename(w, from, to) == Planned.Planned(w1, Success(plan))
    ensures Mount.Rename(w, from, to) == CarryOut(w1, plan)
  {
    hide Resolve, SplitParent, CarryOut;
  }

  // ----- a file that stays aside, and one that is left in the listing it left -----

  /** The mount has listed all three folders. */
  ghost predicate AllListed(w: World, kept: Object, mover: Object) {
    && InTwoFolders(w, kept, mover)
    && w.tree.listed == {ROOT, 1, 2} && w.tree.children == map[ROOT := [1, 2], 1 := [4], 2 := [3]]
    && w.tree.entries == map[1 := Entry(1, ROOT, "d", true, 0), 2 := Entry(2, ROOT, "e", true, 0),
                             3 := Entry(3, 2, "f", false, |kept.data|), 4 := Entry(4, 1, "f", false, |mover.data|)]
  }

  lemma AllLookups(w: World, kept: Object, mover: Object)
    requires AllListed(w, kept, mover)
    ensures LookupFrom(w.tree, ROOT, ["d", "f"]) == Found(4) && LookupFrom(w.tree, ROOT, ["d"]) == Found(1)
    ensures LookupFrom(w.tree, ROOT, ["e"]) == Found(2) && LookupFrom(w.tree, ROOT, ["e", "f"]) == Found(3)
    ensures LookupFrom(w.tree, ROOT, ["e", "g"]) == NotFound
  {
    assert [1 as Handle, 2][1..] == [2] && [3 as Handle][1..] == [];
    assert "d"[0] != "e"[0] && "f"[0] != "g"[0];
    assert FirstNamed(w.tree.entries, [2], "e") == Some(2);
    assert ChildNamed(w.tree, ROOT, "d") == Some(1) && ChildNamed(w.tree, ROOT, "e") == Some(2);
    assert FirstNamed(w.tree.entries, [3], "g") == FirstNamed(w.tree.entries, [], "g");
    assert ChildNamed(w.tree, 1, "f") == Some(4) && ChildNamed(w.tree, 2, "f") == Some(3);
    assert ChildNamed(w.tree, 2, "g") == None;
    assert ["d", "f"][1..] == ["f"] && ["e", "f"][1..] == ["f"] && ["e", "g"][1..] == ["g"];
    assert ["f"][1..] == [] && ["d"][1..] == [] && ["e"][1..] == [];
  }

  lemma AllFound(w: World, kept: Object, mover: Object)
    requires AllListed(w, kept, mover)
    ensures Mount.Rename(w, "/d/f", "/e/f") == CarryOut(w, Plan(4, 1, 2, "f", Some(3)))
    ensures Mount.Rename(w, "/d/f", "/e/g") == CarryOut(w, Plan(4, 1, 2, "g", None))
  {
    ShortPaths();
    AllLookups(w, kept, mover);
    hide Split, SplitParent, LookupFrom, Resolve, JoinPath, Mount.Rename, CarryOut, PlanRename, AllListed;
    FindsAtOnce(w, "/d/f", 4);
    FindsAtOnce(w, "/d", 1);
    FindsAtOnce(w, "/e", 2);
    FindsAtOnce(w, "/e/f", 3);
    FindsNothing(w, "/e/g");
    PlanOf(w, "/d/f", "/e/f", Plan(4, 1, 2, "f", Some(3)), w);
    PlanOf(w, "/d/f", "/e/g", Plan(4, 1, 2, "g", None), w);
  }

  /** The file "/e/f" makes room for the file "/d/f", whose move is then refused: the call answers
      EIO, and the first stays under its aside name. */
  lemma AsideStays(w: World, kept: Object, mover: Object)
    requires AllListed(w, kept, mover) && w.m.dev.script[0].verdict.Done? && w.m.dev.script[1].verdict.Refused?
    ensures var o := Mount.Rename(w, "/d/f", "/e/f"); var aside := AsideName("f", w.host.count);
      && o.rc == -EIO && aside != "f"
      && o.w.m.dev.store.objects == w.m.dev.store.objects[3 := kept.(name := aside)]
  {
    AllFound(w, kept, mover);
    hide AsideName, RenameObject, MoveObject, Mount.Rename;
    var aside := AsideName("f", w.host.count);
    AsideDiffers("f", w.host.count);
    AsTold.Renames(w.m, 3, aside);
    AsTold.Refuses(RenameObject(w.m, 3, aside).m, 4, "", 2);
  }

  /** The file "/d/f" moves to the folder "e" and then does not take the name "g": the call
      answers EIO, and the mount goes on listing the file in "d", where there is none. */
  lemma StrandedFile(w: World, kept: Object, mover: Object)
    requires AllListed(w, kept, mover) && w.m.dev.script[0].verdict.Done? && w.m.dev.script[1].verdict.Refused?
    ensures var o := Mount.Rename(w, "/d/f", "/e/g");
      && o.rc == -EIO && 1 in o.w.tree.listed && 1 in o.w.tree.children && o.w.tree.children[1] == [4]
      && Kids(o.w.m.dev.store, 1) == []
  {
    AllFound(w, kept, mover);
    hide RenameObject, MoveObject, Mount.Rename, Kids, InTwoFolders;
    assert w.m.canMove && w.m.canRename && IsFolder(w.m.dev.store, 2) && 4 in w.m.dev.store.objects by {
      TwoFoldersHold(w, kept, mover);
    }
    assert "f"[0] != "g"[0];
    var t := MoveObject(w.m, 4, 2);
    AsTold.Moves(w.m, 4, 2);
    AsTold.Refuses(t.m, 4, "g", 2);
    MoverIsOut(w, kept, mover, t.m.dev.store);
  }

  lemma TwoFoldersHold(w: World, kept: Object, mover: Object)
    requires InTwoFolders(w, kept, mover)
    ensures w.m.canMove && w.m.canRename && IsFolder(w.m.dev.store, 2) && 4 in w.m.dev.store.objects
  {
  }

  lemma MoverIsOut(w: World, kept: Object, mover: Object, s: Store)
    requires InTwoFolders(w, kept, mover) && s.order == w.m.dev.store.order
    requires s.objects == w.m.dev.store.objects[4 := mover.(parent := 2)]
    ensures Kids(s, 1) == []
  {
    AsTold.NoKids(s.objects, s.order, 1);
  }

  // ----- a file that stands in the way unseen -----

  /** The mount has listed the root and "d". The device gives no answer to one request, and does
      the next. */
  ghost predicate TwoFiles(w: World, kept: Object, mover: Object) {
    && InTwoFolders(w, kept, mover)
    && w.tree.listed == {ROOT, 1} && w.tree.children == map[ROOT := [1, 2], 1 := [4]]
    && w.tree.entries == map[1 := Entry(1, ROOT, "d", true, 0), 2 := Entry(2, ROOT, "e", true, 0),
                             4 := Entry(4, 1, "f", false, |mover.data|)]
    && w.m.dev.script[0].verdict.Lost? && w.m.dev.script[1].verdict.Done?
  }

  lemma TwoFilesLookups(w: World, kept: Object, mover: Object)
    requires TwoFiles(w, kept, mover)
    ensures LookupFrom(w.tree, ROOT, ["d", "f"]) == Found(4) && LookupFrom(w.tree, ROOT, ["d"]) == Found(1)
    ensures LookupFrom(w.tree, ROOT, ["e"]) == Found(2) && LookupFrom(w.tree, ROOT, ["e", "f"]) == NeedListing(2)
  {
    assert [1 as Handle, 2][1..] == [2];
    assert "d"[0] != "e"[0];
    assert FirstNamed(w.tree.entries, [2], "e") == Some(2);
    assert ChildNamed(w.tree, ROOT, "d") == Some(1) && ChildNamed(w.tree, ROOT, "e") == Some(2);
    assert ChildNamed(w.tree, 1, "f") == Some(4);
    assert ["d", "f"][1..] == ["f"] && ["e", "f"][1..] == ["f"] && ["f"][1..] == [] && ["d"][1..] == [] && ["e"][1..] == [];
  }

  lemma TwoFilesPlan(w: World, kept: Object, mover: Object)
    requires TwoFiles(w, kept, mover)
    ensures var pl := PlanRename(w, "/d/f", "/e/f");
      && pl.r == Success(Plan(4, 1, 2, "f", None))
      && pl.w == w.(m := w.m.(dev := Device.List(w.m.dev, 2).dev))
      && Mount.Rename(w, "/d/f", "/e/f") == CarryOut(pl.w, Plan(4, 1, 2, "f", None))
  {
    ShortPaths();
    TwoFilesLookups(w, kept, mover);
    hide Split, SplitParent, LookupFrom, Resolve, TwoFiles;
    FindsAtOnce(w, "/d/f", 4);
    FindsAtOnce(w, "/d", 1);
    FindsAtOnce(w, "/e", 2);
    assert w.m.dev.script != [] && w.m.dev.script[0].verdict.Lost? by {
      TwoFilesScript(w, kept, mover);
    }
    FindsNoAnswer(w, "/e/f", 2);
    hide PlanRename, Device.List, Mount.Rename, CarryOut;
    PlanOf(w, "/d/f", "/e/f", Plan(4, 1, 2, "f", None), w.(m := w.m.(dev := Device.List(w.m.dev, 2).dev)));
  }

  lemma TwoFilesScript(w: World, kept: Object, mover: Object)
    requires TwoFiles(w, kept, mover)
    ensures w.m.dev.script != [] && w.m.dev.script[0].verdict.Lost?
  {
  }

  lemma FindsNoAnswer(w: World, path: string, folder: Handle)
    requires LookupFrom(w.tree, ROOT, Split(path)) == NeedListing(folder)
    requires w.m.dev.script != [] && w.m.dev.script[0].verdict.Lost?
    ensures Resolve(w, path) == Resolved(w.(m := w.m.(dev := Device.List(w.m.dev, folder).dev)), None)
  {
    hide LookupFrom, Split;
  }

  /** The listing of "e" gets no answer, so the rename of "/d/f" onto "/e/f" sees no file there.
      It answers 0; the old file keeps its name beside the new one, and "/e/f" still leads to it. */
  lemma HiddenFileStays(w: World, kept: Object, mover: Object)
    requires TwoFiles(w, kept, mover)
    ensures var o := Mount.Rename(w, "/d/f", "/e/f"); var s' := o.w.m.dev.store;
      && o.rc == 0
      && s'.objects == w.m.dev.store.objects[4 := mover.(parent := 2)] && s'.objects[3] == kept
      && Walk(w.m.dev.store, ROOT, Split("/e/f")) == Some(3) && Walk(s', ROOT, Split("/e/f")) == Some(3)
  {
    hide Mount.Rename, CarryOut, PlanRename, Walk, Split, Device.List, SplitParent;
    TwoFilesPlan(w, kept, mover);
    ListTakesOne(w.m.dev, 2);
    var w1 := w.(m := w.m.(dev := Device.List(w.m.dev, 2).dev));
    MoverMoves(w1, w.m.dev.store.objects, mover);
    ShortPaths();
    WalkToThree(w.m.dev.store);
    WalkToThree(Mount.Rename(w, "/d/f", "/e/f").w.m.dev.store);
  }

  lemma ListTakesOne(d: Dev, folder: Handle)
    requires d.script != []
    ensures Device.List(d, folder).dev.store == d.store && Device.List(d, folder).dev.script == d.script[1..]
  {
  }

  lemma MoverMoves(w: World, objects: map<Handle, Object>, mover: Object)
    requires w.m.dev.store.objects == objects && 4 in objects && objects[4] == mover && mover.name == "f"
    requires 2 in objects && objects[2].isDir && w.m.canMove
    requires 4 in w.tree.entries && w.tree.entries[4].name == "f" && AsTold.Obeys(w.m.dev)
    ensures var o := CarryOut(w, Plan(4, 1, 2, "f", None));
      && o.rc == 0 && o.w.m.dev.store.objects == objects[4 := mover.(parent := 2)]
      && o.w.m.dev.store.order == w.m.dev.store.order
  {
    AsTold.Moves(w.m, 4, 2);
    hide MoveObject;
  }

  lemma WalkToThree(s: Store)
    requires s.order == [1, 2, 3, 4] && s.objects.Keys == {1, 2, 3, 4}
    requires s.objects[1].name == "d" && s.objects[2].name == "e" && s.objects[3].name == "f"
    requires s.objects[1].parent == ROOT && s.objects[2].parent == ROOT && s.objects[2].isDir
    requires s.objects[3].parent == 2 && s.objects[4].parent != ROOT
    ensures Walk(s, ROOT, ["e", "f"]) == Some(3)
  {
    assert s.order[1..] == [2, 3, 4] && [2 as Handle, 3, 4][1..] == [3, 4] && [3 as Handle, 4][1..] == [4] && [4 as Handle][1..] == [];
    var o := s.objects;
    assert KidsIn(o, [4], ROOT) == [];
    assert KidsIn(o, [3, 4], ROOT) == KidsIn(o, [4], ROOT);
    assert KidsIn(o, [2, 3, 4], ROOT) == [2] + KidsIn(o, [3, 4], ROOT);
    assert Kids(s, ROOT) == [1, 2];
    assert FirstKid(o, [1, 2], "e") == Some(2) by {
      assert [1 as Handle, 2][1..] == [2];
      assert "d"[0] != "e"[0];
    }
    assert KidsIn(o, [3, 4], 2) == [3] + KidsIn(o, [4], 2);
    assert KidsIn(o, [2, 3, 4], 2) == KidsIn(o, [3, 4], 2);
    assert Kids(s, 2)[0] == 3;
    assert ["e", "f"][1..] == ["f"] && ["f"][1..] == [];
    assert Walk(s, 2, ["f"]) == Some(3);
  }
}
