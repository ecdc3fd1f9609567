/** Paths and direct walks of the device: how a path splits, that a walk has one way to an
    object, and which walks survive a change. `crates/mtpfs/src/main.rs`, lines 1013 to 1019. */
module Walks {
  import opened Wrappers
  import opened PathTree
  import opened Device
  import opened World
  import opened Index

  // ----- a path is its folder and its name -----

  lemma {:induction false} LastSlashIsLast(path: string)
    ensures match LastSlash(path)
      case None => '/' !in path
      case Some(i) => path[i] == '/' && '/' !in path[i + 1..]
  {
    if path != [] && path[|path| - 1] != '/' {
      var rest := path[..|path| - 1];
      LastSlashIsLast(rest);
      assert path == rest + [path[|path| - 1]];
      if LastSlash(rest).Some? {
        var i := LastSlash(rest).value;
        assert path[i + 1..] == rest[i + 1..] + [path[|path| - 1]];
      }
    }
  }

  lemma {:induction false} HeadOfAppend(a: string, b: string)
    requires '/' in a
    ensures Head(a + b) == Head(a) && AfterHead(a + b) == AfterHead(a) + b
  {
    if a[0] == '/' {
      assert (a + b)[1..] == a[1..] + b;
    } else {
      assert (a + b)[1..] == a[1..] + b;
      HeadOfAppend(a[1..], b);
    }
  }

  lemma SplitOfName(name: string)
    requires '/' !in name && Counts(name)
    ensures Split(name) == [name]
  {
    HeadOfName(name, []);
    assert name + [] == name;
  }

  lemma {:induction false} SplitOfAppend(dir: string, name: string)
    requires '/' !in name && Counts(name)
    ensures Split(dir + ("/" + name)) == Split(dir) + [name]
    decreases |dir|
  {
    var path := dir + ("/" + name);
    SplitOfName(name);
    if '/' in dir {
      HeadOfAppend(dir, "/" + name);
      SplitOfAppend(AfterHead(dir), name);
    } else {
      HeadOfName(dir, "/" + name);
      HeadOfName(dir, []);
      assert dir + [] == dir;
      assert AfterHead(path) == name;
    }
  }

  /** A path whose last part names something. The kernel passes no other to a rename. */
  predicate Proper(path: string) {
    Counts(SplitParent(path).1)
  }

  lemma RootSplitsToNothing()
    ensures Split("/") == [] && Split("") == []
  {
    assert Split("/") == Split("");
  }

  /** `split_parent` cuts off exactly the last part. */
  lemma SplitParentSplits(path: string)
    requires Proper(path)
    ensures Split(path) == Split(SplitParent(path).0) + [SplitParent(path).1]
  {
    hide Split, LastSlash, Counts;
    LastSlashIsLast(path);
    RootSplitsToNothing();
    if LastSlash(path).None? {
      SplitOfName(path);
    } else {
      var i := LastSlash(path).value;
      var name := path[i + 1..];
      assert SplitParent(path).1 == name;
      assert path == path[..i] + ("/" + name);
      SplitOfAppend(path[..i], name);
    }
  }

  // ----- the last step of a walk -----

  lemma {:induction false} WalkAppend(s: Store, h: Handle, parts: seq<string>, name: string)
    ensures var up := Walk(s, h, parts);
      Walk(s, h, parts + [name]) ==
        if up.None? || !IsFolder(s, up.value) then None else FirstKid(s.objects, Kids(s, up.value), name)
    decreases |parts|
  {
    hide IsFolder, Kids, FirstKid;
    if parts == [] {
      assert parts + [name] == [name];
      assert [name][1..] == [];
    } else {
      assert (parts + [name])[1..] == parts[1..] + [name];
      if IsFolder(s, h) {
        var k := FirstKid(s.objects, Kids(s, h), parts[0]);
        if k.Some? {
          WalkAppend(s, k.value, parts[1..], name);
        }
      }
    }
  }

  lemma WalkPrefix(s: Store, parts: seq<string>, i: nat)
    requires i <= |parts| && Walk(s, ROOT, parts).Some?
    ensures Walk(s, ROOT, parts[..i]).Some?
    decreases |parts| - i
  {
    hide Walk;
    if i < |parts| {
      WalkPrefix(s, parts, i + 1);
      assert parts[..i + 1] == parts[..i] + [parts[i]];
      WalkAppend(s, ROOT, parts[..i], parts[i]);
    } else {
      assert parts[..i] == parts;
    }
  }

  /** The last step of a walk that ends: the object is in the folder before it, under its name. */
  lemma LastStep(s: Store, parts: seq<string>, k: Handle)
    requires WfStore(s) && parts != [] && Walk(s, ROOT, parts) == Some(k)
    ensures k in s.objects && k != ROOT && s.objects[k].name == parts[|parts| - 1]
    ensures Walk(s, ROOT, parts[..|parts| - 1]) == Some(s.objects[k].parent)
    ensures IsFolder(s, s.objects[k].parent)
  {
    var up, name := parts[..|parts| - 1], parts[|parts| - 1];
    assert parts == up + [name];
    WalkAppend(s, ROOT, up, name);
    hide Walk, IsFolder;
    var folder := Walk(s, ROOT, up).value;
    FirstKidIsThere(s.objects, Kids(s, folder), name);
    KidsAreThere(s.objects, s.order, folder);
  }

  /** Every object has at most one path of first matches. */
  lemma {:induction false} WalkIsUnique(s: Store, a: seq<string>, b: seq<string>, k: Handle)
    requires WfStore(s) && Walk(s, ROOT, a) == Some(k) && Walk(s, ROOT, b) == Some(k)
    ensures a == b
    decreases |a|
  {
    if a != [] {
      LastStep(s, a, k);
    }
    if b != [] {
      LastStep(s, b, k);
    }
    if a != [] && b != [] {
      WalkIsUnique(s, a[..|a| - 1], b[..|b| - 1], s.objects[k].parent);
      assert a == a[..|a| - 1] + [a[|a| - 1]];
      assert b == b[..|b| - 1] + [b[|b| - 1]];
    }
  }

  // ----- walks that survive a change -----

  /** The walk takes the same step at `q` in both stores. */
  ghost predicate SameStep(s: Store, s': Store, q: Handle, name: string) {
    && IsFolder(s', q)
    && FirstKid(s'.objects, Kids(s', q), name) == FirstKid(s.objects, Kids(s, q), name)
  }

  lemma {:induction false} WalkSurvives(s: Store, s': Store, parts: seq<string>)
    requires Walk(s, ROOT, parts).Some?
    requires forall i :: 0 <= i < |parts| ==>
      Walk(s, ROOT, parts[..i]).Some? && SameStep(s, s', Walk(s, ROOT, parts[..i]).value, parts[i])
    ensures Walk(s', ROOT, parts) == Walk(s, ROOT, parts)
    decreases |parts|
  {
    hide Walk, SameStep;
    if parts != [] {
      var n := |parts| - 1;
      var up := parts[..n];
      assert parts == up + [parts[n]];
      forall i | 0 <= i < n
        ensures Walk(s, ROOT, up[..i]).Some? && SameStep(s, s', Walk(s, ROOT, up[..i]).value, up[i])
      {
        assert up[..i] == parts[..i];
      }
      assert Walk(s, ROOT, up).Some?;
      WalkSurvives(s, s', up);
      WalkAppend(s, ROOT, up, parts[n]);
      WalkAppend(s', ROOT, up, parts[n]);
      SameStepIs(s, s', Walk(s, ROOT, up).value, parts[n]);
    } else {
      NoParts(s, s');
    }
  }

  lemma SameStepIs(s: Store, s': Store, q: Handle, name: string)
    requires SameStep(s, s', q, name)
    ensures IsFolder(s', q)
    ensures FirstKid(s'.objects, Kids(s', q), name) == FirstKid(s.objects, Kids(s, q), name)
  {
  }

  lemma NoParts(s: Store, s': Store)
    ensures Walk(s, ROOT, []) == Walk(s', ROOT, []) == Some(ROOT)
  {
  }

  /** An object other than `x` is in a folder, and named, in both stores alike. */
  ghost predicate SameBesides(a: map<Handle, Object>, b: map<Handle, Object>, q: Handle, x: Handle) {
    forall k: Handle :: k != x ==>
      && (k in a && a[k].parent == q <==> k in b && b[k].parent == q)
      && (k in a && a[k].parent == q ==> b[k].name == a[k].name)
  }

  /** A folder that loses at most the object `x` keeps its first match, when that is not `x`. */
  lemma {:induction false} FirstKidStays(a: map<Handle, Object>, b: map<Handle, Object>,
                                         order: seq<Handle>, q: Handle, name: string, x: Handle)
    requires SameBesides(a, b, q, x) && !(x in b && b[x].parent == q)
    requires FirstKid(a, KidsIn(a, order, q), name) != Some(x)
    ensures FirstKid(b, KidsIn(b, order, q), name) == FirstKid(a, KidsIn(a, order, q), name)
  {
    if order != [] {
      if order[0] in a && a[order[0]].parent == q && order[0] != x && a[order[0]].name == name {
      } else {
        FirstKidStays(a, b, order[1..], q, name, x);
      }
    }
  }

  /** An object of the folder that carries the name. */
  predicate Named(objects: map<Handle, Object>, h: Handle, folder: Handle, name: string) {
    h in objects && objects[h].parent == folder && objects[h].name == name
  }

  /** An object of the folder other than `besides` carries the name, and is listed before `k`. */
  ghost predicate NamedBefore(objects: map<Handle, Object>, order: seq<Handle>, folder: Handle,
                              name: string, k: Handle, besides: Option<Handle>) {
    exists i :: 0 <= i < |order| && k !in order[..i + 1]
                && Named(objects, order[i], folder, name) && besides != Some(order[i])
  }

  /** An object of the folder other than `besides` carries the name. */
  ghost predicate NameTaken(objects: map<Handle, Object>, folder: Handle, name: string,
                            besides: Option<Handle>) {
    exists h: Handle :: Named(objects, h, folder, name) && besides != Some(h)
  }

  /** An object is the first match for its name exactly when no other is listed before it. */
  lemma {:induction false} FirstKidIff(objects: map<Handle, Object>, order: seq<Handle>, folder: Handle,
                                       name: string, k: Handle)
    requires k in order && Named(objects, k, folder, name)
    ensures FirstKid(objects, KidsIn(objects, order, folder), name) == Some(k)
      <==> !NamedBefore(objects, order, folder, name, k, None)
  {
    if order[0] == k {
    } else if Named(objects, order[0], folder, name) {
      assert k !in order[..0 + 1];
      assert NamedBefore(objects, order, folder, name, k, None);
    } else {
      FirstKidIff(objects, order[1..], folder, name, k);
      LaterNamed(objects, order, folder, name, k);
    }
  }

  /** An object that does not carry the name may come first. */
  lemma LaterNamed(objects: map<Handle, Object>, order: seq<Handle>, folder: Handle, name: string, k: Handle)
    requires order != [] && order[0] != k && !Named(objects, order[0], folder, name)
    ensures NamedBefore(objects, order, folder, name, k, None)
      <==> NamedBefore(objects, order[1..], folder, name, k, None)
  {
    hide Named;
    var rest := order[1..];
    if NamedBefore(objects, rest, folder, name, k, None) {
      var i :| 0 <= i < |rest| && k !in rest[..i + 1] && Named(objects, rest[i], folder, name);
      assert k !in order[..(i + 1) + 1] by {
        assert order[..i + 2] == [order[0]] + rest[..i + 1];
      }
      assert Named(objects, order[i + 1], folder, name);
    }
    if NamedBefore(objects, order, folder, name, k, None) {
      var i :| 0 <= i < |order| && k !in order[..i + 1] && Named(objects, order[i], folder, name);
      assert k !in rest[..(i - 1) + 1] by {
        assert order[..i + 1] == [order[0]] + rest[..i];
      }
      assert Named(objects, rest[i - 1], folder, name);
    }
  }

  /** Besides `k`, the objects of the folder that carry the name are those that did, without `gone`. */
  ghost predicate OneGone(a: map<Handle, Object>, b: map<Handle, Object>, folder: Handle, name: string,
                          k: Handle, gone: Option<Handle>) {
    forall h: Handle :: h != k ==> (Named(b, h, folder, name) <==> Named(a, h, folder, name) && gone != Some(h))
  }

  lemma NamedBeforeStays(a: map<Handle, Object>, b: map<Handle, Object>, order: seq<Handle>,
                         folder: Handle, name: string, k: Handle, gone: Option<Handle>)
    requires OneGone(a, b, folder, name, k, gone)
    ensures NamedBefore(b, order, folder, name, k, None) <==> NamedBefore(a, order, folder, name, k, gone)
  {
    hide Named;
    if NamedBefore(b, order, folder, name, k, None) {
      var i :| 0 <= i < |order| && k !in order[..i + 1] && Named(b, order[i], folder, name);
      assert order[..i + 1][i] != k;
      assert Named(a, order[i], folder, name);
    }
    if NamedBefore(a, order, folder, name, k, gone) {
      var i :| 0 <= i < |order| && k !in order[..i + 1] && Named(a, order[i], folder, name) && gone != Some(order[i]);
      assert order[..i + 1][i] != k;
      assert Named(b, order[i], folder, name);
    }
  }

  /** An object that is listed last comes after every other that carries its name. */
  lemma LastIsBehind(objects: map<Handle, Object>, order: seq<Handle>, folder: Handle, name: string,
                     k: Handle, gone: Option<Handle>)
    requires k !in order && forall h <- objects :: h != k ==> h in order
    ensures NamedBefore(objects, order + [k], folder, name, k, gone) <==> NameTaken(objects - {k}, folder, name, gone)
  {
    var all := order + [k];
    if NameTaken(objects - {k}, folder, name, gone) {
      var h: Handle :| Named(objects - {k}, h, folder, name) && gone != Some(h);
      var i :| 0 <= i < |order| && order[i] == h;
      assert all[..i + 1] == order[..i + 1];
      assert k !in all[..i + 1] && Named(objects, all[i], folder, name);
    }
    if NamedBefore(objects, all, folder, name, k, gone) {
      var i :| 0 <= i < |all| && k !in all[..i + 1] && Named(objects, all[i], folder, name) && gone != Some(all[i]);
      assert all[..i + 1][i] != k;
      assert Named(objects - {k}, all[i], folder, name);
    }
  }

  // ----- paths resolved at once, and paths too deep to resolve -----

  lemma FindsAtOnce(w: World, path: string, h: Handle)
    requires LookupFrom(w.tree, ROOT, Split(path)) == Found(h)
    ensures Resolve(w, path) == Resolved(w, Some(h))
  {
    hide LookupFrom, Split;
  }

  lemma FindsNothing(w: World, path: string)
    requires LookupFrom(w.tree, ROOT, Split(path)) == NotFound
    ensures Resolve(w, path) == Resolved(w, None)
  {
    hide LookupFrom, Split;
  }

  /** A tree that holds the one file "/a". */
  function OneFileTree(size: nat): TreeState {
    TreeState(map[1 := Entry(1, ROOT, "a", false, size)], map[ROOT := [1]], {ROOT})
  }

  lemma FindsOneFile(w: World, size: nat)
    requires w.tree == OneFileTree(size)
    ensures Resolve(w, "/a") == Resolved(w, Some(1)) && EntryAt(w.tree, 1) == Some(Entry(1, ROOT, "a", false, size))
  {
    assert JoinPath(["a"]) == "/a";
    SplitUndoesJoin(["a"]);
    assert LookupFrom(w.tree, ROOT, ["a"]) == Found(1) by {
      assert ChildNamed(w.tree, ROOT, "a") == Some(1);
      assert ["a"][1..] == [];
    }
    hide Split, LookupFrom;
    FindsAtOnce(w, "/a", 1);
  }

  /** 64 folders, each the only object in the one before it; every one is named "d". */
  function Nested(): Store {
    Store(map i | i in Rungs() :: Object(i - 1, "d", true, []), Rungs(), 65)
  }

  function Rungs(): (hs: seq<Handle>)
    ensures |hs| == 64 && forall i :: 0 <= i < 64 ==> hs[i] == i + 1
  {
    seq(64, i requires 0 <= i < 64 => i + 1)
  }

  function Ds(n: nat): seq<string> {
    if n == 0 then [] else ["d"] + Ds(n - 1)
  }

  lemma RungsAre(k: Handle)
    ensures k in Rungs() <==> 1 <= k <= 64
  {
    if 1 <= k <= 64 {
      assert Rungs()[k - 1] == k;
    }
  }

  lemma NestedKid(k: Handle)
    requires k < 64
    ensures var s := Nested();
      IsFolder(s, k) && FirstKid(s.objects, Kids(s, k), "d") == Some(k + 1)
  {
    var s := Nested();
    KidsAreThere(s.objects, s.order, k);
    RungsAre(k);
    RungsAre(k + 1);
    assert s.objects[k + 1] == Object(k, "d", true, []);
    FirstKidIsThere(s.objects, Kids(s, k), "d");
    SomeKid(s.objects, Kids(s, k), "d", k + 1);
    hide Kids, Nested;
  }

  lemma {:induction false} SomeKid(objects: map<Handle, Object>, hs: seq<Handle>, name: string, k: Handle)
    requires k in hs && k in objects && objects[k].name == name
    ensures FirstKid(objects, hs, name).Some?
  {
    if hs[0] != k {
      SomeKid(objects, hs[1..], name, k);
    }
  }

  /** The first object named "d" of folder `k` is `k + 1`. */
  ghost predicate Rung(s: Store, k: Handle)
    requires k < 0xffff_ffff
  {
    IsFolder(s, k) && FirstKid(s.objects, Kids(s, k), "d") == Some(k + 1)
  }

  lemma {:induction false} LadderWalk(s: Store, t: TreeState, k: Handle, n: nat)
    requires k + n <= 64 && t.listed == {} && forall i: Handle :: k <= i < k + n ==> Rung(s, i)
    ensures Walk(s, k, Ds(n)) == Some(k + n)
    ensures |Unlisted(t, s, k, Ds(n))| == n && forall h :: h in Unlisted(t, s, k, Ds(n)) ==> k <= h
    decreases n
  {
    if n > 0 {
      assert Rung(s, k);
      LadderWalk(s, t, k + 1, n - 1);
      LadderStep(s, t, k, Ds(n));
    }
  }

  lemma LadderStep(s: Store, t: TreeState, k: Handle, parts: seq<string>)
    requires k < 0xffff_ffff && Rung(s, k) && parts != [] && parts[0] == "d" && t.listed == {}
    requires k !in Unlisted(t, s, k + 1, parts[1..])
    ensures Walk(s, k, parts) == Walk(s, k + 1, parts[1..])
    ensures Unlisted(t, s, k, parts) == {k} + Unlisted(t, s, k + 1, parts[1..])
    ensures |Unlisted(t, s, k, parts)| == 1 + |Unlisted(t, s, k + 1, parts[1..])|
  {
    hide FirstKid, Kids, IsFolder;
  }

  lemma NestedIsTooDeep(t: TreeState, n: nat)
    requires t.listed == {} && n == 64
    ensures Walk(Nested(), ROOT, Ds(n)) == Some(n as Handle)
    ensures Expected(t, Nested(), Ds(n), MAX_WALK) == None
  {
    hide Nested, Ds, Walk, Unlisted, FirstKid, Kids, IsFolder;
    forall i: Handle | i < 64
      ensures Rung(Nested(), i)
    {
      NestedKid(i);
    }
    LadderWalk(Nested(), t, ROOT, n);
  }

  /** The innermost folder is there, and a fresh mount finds nothing under its path, although
      the phone answers every listing. */
  lemma DeepFolderIsNotFound(w: World, n: nat)
    requires IndexOk(w) && w.m.dev.store == Nested() && w.tree.listed == {} && Answers(w.m.dev, MAX_WALK)
    requires n == 64
    ensures var path := JoinPath(Ds(n));
      Walk(w.m.dev.store, ROOT, Split(path)) == Some(n as Handle) && Resolve(w, path).h == None
  {
    hide Nested, Ds, JoinPath, Split, Walk, Expected, Resolve, IndexOk, Answers;
    NestedIsTooDeep(w.tree, n);
    DsAreNames(n);
    SplitUndoesJoin(Ds(n));
    ResolveLoopIs(w, JoinPath(Ds(n)));
  }

  lemma {:induction false} DsAreNames(n: nat)
    ensures forall p <- Ds(n) :: GoodName(p)
  {
    if n > 0 {
      DsAreNames(n - 1);
    }
  }

  lemma ResolveLoopIs(w: World, path: string)
    requires IndexOk(w) && Answers(w.m.dev, MAX_WALK)
    ensures Resolve(w, path).h == Expected(w.tree, w.m.dev.store, Split(path), MAX_WALK)
  {
    ResolveLoopWalks(w, Split(path), MAX_WALK);
    hide IndexOk, Answers, Expected, OnlyListed, Walk, LookupFrom;
  }
}
