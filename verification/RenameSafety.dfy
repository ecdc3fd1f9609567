/** The rename protocol of `op_rename`: no step loses the bytes of either file, and what each
    way out leaves. `crates/mtpfs/src/main.rs`, lines 873 to 950. */
module RenameSafety {
  import opened Wrappers
  import opened PathTree
  import opened Device
  import opened Backend
  import opened World
  import opened SwapSafety

  /** A plan over objects the device holds, with the name the tree remembers up to date. */
  ghost predicate Sensible(w: World, plan: Plan) {
    && plan.h in w.m.dev.store.objects
    && OldName(w.tree, plan.h) == w.m.dev.store.objects[plan.h].name
    && w.m.dev.store.objects[plan.h].parent == plan.oldParent
    && (plan.taken.Some? ==> plan.taken.value in w.m.dev.store.objects && plan.taken.value != plan.h)
  }

  /** The objects a rename is about, as they were, and the name the target moves aside under. */
  datatype Renaming = Renaming(plan: Plan, source: Object, target: Option<Object>, aside: string)

  function RenamingOf(w: World, plan: Plan): Renaming
    requires plan.h in w.m.dev.store.objects
    requires plan.taken.Some? ==> plan.taken.value in w.m.dev.store.objects
  {
    Renaming(plan, w.m.dev.store.objects[plan.h],
             if plan.taken.Some? then Some(w.m.dev.store.objects[plan.taken.value]) else None,
             AsideName(plan.newName, w.host.count))
  }

  /** The source is there with all its bytes, in one of the two folders, under one of the two names. */
  ghost predicate SourceThere(s: Store, x: Renaming) {
    x.plan.h in s.objects
    && exists p <- {x.source.parent, x.plan.newParent}, n <- {x.source.name, x.plan.newName} ::
         s.objects[x.plan.h] == x.source.(parent := p, name := n)
  }

  /** The object that held the new name is there, under its name, the new name or aside. */
  ghost predicate TargetThere(s: Store, x: Renaming) {
    x.plan.taken.Some? && x.target.Some? && x.plan.taken.value in s.objects
    && exists n <- {x.target.value.name, x.plan.newName, x.aside} ::
         s.objects[x.plan.taken.value] == x.target.value.(name := n)
  }

  /** The source carries the new name in the new folder. */
  ghost predicate InPlace(s: Store, x: Renaming) {
    x.plan.h in s.objects
    && s.objects[x.plan.h] == x.source.(parent := x.plan.newParent, name := x.plan.newName)
  }

  ghost predicate NothingLost(s: Store, x: Renaming) {
    SourceThere(s, x) && (x.plan.taken.None? || TargetThere(s, x) || InPlace(s, x))
  }

  // ----- one request at a time -----

  lemma StartsWhole(w: World, plan: Plan)
    requires Sensible(w, plan)
    ensures var x := RenamingOf(w, plan); var s := w.m.dev.store;
      NothingLost(s, x) && (plan.taken.Some? ==> TargetThere(s, x))
  {
    var x := RenamingOf(w, plan);
    assert x.source.(parent := x.source.parent, name := x.source.name) == x.source;
    if plan.taken.Some? {
      assert x.target.value.(name := x.target.value.name) == x.target.value;
    }
  }

  /** A new name for the target keeps both files. */
  lemma TargetRenamed(m: MtpState, x: Renaming, name: string)
    requires NothingLost(m.dev.store, x) && TargetThere(m.dev.store, x)
    requires x.plan.taken.value != x.plan.h && (name == x.aside || name == x.plan.newName)
    ensures var t := RenameObject(m, x.plan.taken.value, name);
      && Throughout(m.dev, t.m.dev, s => NothingLost(s, x))
      && NothingLost(t.m.dev.store, x) && TargetThere(t.m.dev.store, x)
  {
    var t := RenameObject(m, x.plan.taken.value, name);
    var k := x.plan.taken.value;
    var s' := t.m.dev.store;
    if t.ok {
      assert s'.objects[k] == x.target.value.(name := name);
    }
    assert SourceThere(s', x) by {
      assert s'.objects[x.plan.h] == m.dev.store.objects[x.plan.h];
    }
    OneEvent(m.dev, t.m.dev, s => NothingLost(s, x));
  }

  /** So does a move of the source, and a new name for it. */
  lemma SourceChanged(m: MtpState, x: Renaming, t: Tried)
    requires NothingLost(m.dev.store, x)
    requires x.plan.taken.Some? ==> TargetThere(m.dev.store, x) && x.plan.taken.value != x.plan.h
    requires t == MoveObject(m, x.plan.h, x.plan.newParent) || t == RenameObject(m, x.plan.h, x.plan.newName)
    ensures Throughout(m.dev, t.m.dev, s => NothingLost(s, x)) && NothingLost(t.m.dev.store, x)
    ensures x.plan.taken.Some? ==> TargetThere(t.m.dev.store, x)
  {
    var h := x.plan.h;
    var s, s' := m.dev.store, t.m.dev.store;
    var p, n :| p in {x.source.parent, x.plan.newParent} && n in {x.source.name, x.plan.newName}
                && s.objects[h] == x.source.(parent := p, name := n);
    assert s'.objects[h] == x.source.(parent := s'.objects[h].parent, name := s'.objects[h].name);
    assert SourceThere(s', x);
    if x.plan.taken.Some? {
      assert s'.objects[x.plan.taken.value] == s.objects[x.plan.taken.value];
    }
    OneEvent(m.dev, t.m.dev, s => NothingLost(s, x));
  }

  /** And the removal of the target, once the source is in place. */
  lemma TargetDeleted(m: MtpState, x: Renaming)
    requires NothingLost(m.dev.store, x) && InPlace(m.dev.store, x)
    requires x.plan.taken.Some? && x.plan.taken.value != x.plan.h
    ensures Throughout(m.dev, DeleteObject(m, x.plan.taken.value).m.dev, s => NothingLost(s, x))
  {
    var t := DeleteObject(m, x.plan.taken.value);
    assert t.m.dev.store.objects[x.plan.h] == m.dev.store.objects[x.plan.h];
    OneEvent(m.dev, t.m.dev, s => NothingLost(s, x));
  }

  // ----- the steps in turn -----

  /** Between two steps: nothing is lost so far, and the target is still there. */
  ghost predicate OnTheWay(before: Dev, w: World, x: Renaming) {
    && Throughout(before, w.m.dev, s => NothingLost(s, x))
    && NothingLost(w.m.dev.store, x)
    && (x.plan.taken.Some? ==> TargetThere(w.m.dev.store, x) && x.plan.taken.value != x.plan.h)
  }

  lemma SetAsideOnTheWay(w: World, plan: Plan)
    requires Sensible(w, plan)
    ensures OnTheWay(w.m.dev, SetAside(w, plan).w, RenamingOf(w, plan))
  {
    var x := RenamingOf(w, plan);
    StartsWhole(w, plan);
    hide NothingLost, TargetThere, AsideName;
    NoEvent(w.m.dev, s => NothingLost(s, x));
    if plan.taken.Some? {
      TargetRenamed(w.m, x, x.aside);
    }
  }

  lemma MoveOnTheWay(before: Dev, w: World, x: Renaming)
    requires OnTheWay(before, w, x)
    ensures OnTheWay(before, MoveOver(w, x.plan).w, x)
  {
    hide NothingLost, TargetThere;
    var t := MoveObject(w.m, x.plan.h, x.plan.newParent);
    SourceChanged(w.m, x, t);
    InTurn(before, w.m.dev, t.m.dev, s => NothingLost(s, x));
  }

  lemma NameOnTheWay(before: Dev, w: World, x: Renaming)
    requires OnTheWay(before, w, x)
    ensures OnTheWay(before, TakeName(w, x.plan).w, x)
  {
    hide NothingLost, TargetThere;
    var t := RenameObject(w.m, x.plan.h, x.plan.newName);
    SourceChanged(w.m, x, t);
    InTurn(before, w.m.dev, t.m.dev, s => NothingLost(s, x));
    if x.plan.taken.Some? {
      TargetRenamed(t.m, x, x.plan.newName);
      InTurn(before, t.m.dev, RenameObject(t.m, x.plan.taken.value, x.plan.newName).m.dev, s => NothingLost(s, x));
    }
  }

  lemma ClearOnTheWay(before: Dev, w: World, x: Renaming)
    requires OnTheWay(before, w, x) && InPlace(w.m.dev.store, x)
    ensures Throughout(before, ClearAside(w, x.plan).m.dev, s => NothingLost(s, x))
  {
    hide NothingLost, TargetThere, InPlace;
    if x.plan.taken.Some? {
      TargetDeleted(w.m, x);
      InTurn(before, w.m.dev, DeleteObject(w.m, x.plan.taken.value).m.dev, s => NothingLost(s, x));
    }
  }

  // ----- where the source stands -----

  lemma SetAsideKeepsSource(w: World, plan: Plan)
    requires Sensible(w, plan)
    ensures SetAside(w, plan).w.m.dev.store.objects ==
      (if SetAside(w, plan).rc == 0 && plan.taken.Some? then
         w.m.dev.store.objects[plan.taken.value :=
           w.m.dev.store.objects[plan.taken.value].(name := AsideName(plan.newName, w.host.count))]
       else w.m.dev.store.objects)
    ensures var o := SetAside(w, plan);
      && o.w.tree.entries == w.tree.entries && o.w.m.canMove == w.m.canMove && o.w.m.canRename == w.m.canRename
      && w.m.dev.log <= o.w.m.dev.log
  {
    hide AsideName;
  }

  lemma MoveOverMoves(w: World, plan: Plan)
    requires plan.h in w.m.dev.store.objects && w.m.dev.store.objects[plan.h].parent == plan.oldParent
    ensures MoveOver(w, plan).w.m.dev.store.objects ==
      (if MoveOver(w, plan).rc == 0 then w.m.dev.store.objects[plan.h := w.m.dev.store.objects[plan.h].(parent := plan.newParent)]
       else w.m.dev.store.objects)
    ensures var o := MoveOver(w, plan);
      && o.w.tree == w.tree && o.w.m.canRename == w.m.canRename && w.m.dev.log <= o.w.m.dev.log
  {
    var o := w.m.dev.store.objects[plan.h];
    assert plan.newParent == plan.oldParent ==> o.(parent := plan.newParent) == o;
    assert w.m.dev.store.objects[plan.h := o] == w.m.dev.store.objects;
  }

  lemma TakeNameNames(w: World, plan: Plan)
    requires plan.h in w.m.dev.store.objects && OldName(w.tree, plan.h) == w.m.dev.store.objects[plan.h].name
    requires TakeName(w, plan).rc == 0
    ensures TakeName(w, plan).w.m.dev.store.objects ==
      w.m.dev.store.objects[plan.h := w.m.dev.store.objects[plan.h].(name := plan.newName)]
    ensures w.m.dev.log <= TakeName(w, plan).w.m.dev.log
  {
    var o := w.m.dev.store.objects[plan.h];
    assert o.name == plan.newName ==> o.(name := plan.newName) == o;
    assert w.m.dev.store.objects[plan.h := o] == w.m.dev.store.objects;
  }

  /** After the three steps, the source is in place and the target aside. */
  function Placed(objects: Objects, x: Renaming): Objects
    requires x.plan.taken.Some? == x.target.Some?
  {
    var named := objects[x.plan.h := x.source.(parent := x.plan.newParent, name := x.plan.newName)];
    if x.plan.taken.Some? then named[x.plan.taken.value := x.target.value.(name := x.aside)] else named
  }

  lemma StepsPlace(w: World, plan: Plan)
    requires Sensible(w, plan)
    requires var a := SetAside(w, plan); var b := MoveOver(a.w, plan); var c := TakeName(b.w, plan);
      a.rc == 0 && b.rc == 0 && c.rc == 0
    ensures var c := TakeName(MoveOver(SetAside(w, plan).w, plan).w, plan);
      && c.w.m.dev.store.objects == Placed(w.m.dev.store.objects, RenamingOf(w, plan))
      && w.m.dev.log <= c.w.m.dev.log
  {
    hide SetAside, MoveOver, TakeName, AsideName;
    var a := SetAside(w, plan);
    SetAsideKeepsSource(w, plan);
    MoveOverMoves(a.w, plan);
    TakeNameNames(MoveOver(a.w, plan).w, plan);
  }

  /** The rename law. At every step the source's bytes are there; and so are the bytes of the
      object that held the new name, until the source carries that name in its new folder. */
  lemma RenameLosesNothing(w: World, plan: Plan)
    requires Sensible(w, plan)
    ensures var x := RenamingOf(w, plan);
      Throughout(w.m.dev, CarryOut(w, plan).w.m.dev, s => NothingLost(s, x))
  {
    var x := RenamingOf(w, plan);
    var a := SetAside(w, plan);
    var b := MoveOver(a.w, plan);
    var c := TakeName(b.w, plan);
    SetAsideOnTheWay(w, plan);
    MoveOnTheWay(w.m.dev, a.w, x);
    NameOnTheWay(w.m.dev, b.w, x);
    if a.rc == 0 && b.rc == 0 && c.rc == 0 {
      StepsPlace(w, plan);
      ClearOnTheWay(w.m.dev, c.w, x);
    }
    hide SetAside, MoveOver, TakeName, ClearAside, NothingLost, AsideName;
  }

  /** The source carries the new name in the new folder; the object that held the name is gone,
      or stands aside only because its removal failed; nothing else changed. */
  ghost predicate Replaced(before: Dev, after: Dev, x: Renaming)
    requires x.plan.taken.Some? == x.target.Some?
  {
    var placed := Placed(before.store.objects, x);
    && after.store.order == before.store.order
    && if x.plan.taken.None? then after.store.objects == placed
       else
         || after.store.objects == placed - {x.plan.taken.value}
         || (after.store.objects == placed && EndsInVain(before, after, CallDelete(x.plan.taken.value)))
  }

  lemma RenameOutcome(w: World, plan: Plan)
    requires Sensible(w, plan) && CarryOut(w, plan).rc == 0
    ensures Replaced(w.m.dev, CarryOut(w, plan).w.m.dev, RenamingOf(w, plan))
  {
    StepsPlace(w, plan);
    OrderStays(w, plan);
    hide SetAside, MoveOver, TakeName, AsideName, Placed;
  }

  lemma RequestsKeepOrder(m: MtpState, h: Handle, name: string, parent: Handle)
    ensures RenameObject(m, h, name).m.dev.store.order == m.dev.store.order
    ensures MoveObject(m, h, parent).m.dev.store.order == m.dev.store.order
    ensures DeleteObject(m, h).m.dev.store.order == m.dev.store.order
  {
  }

  lemma TakeNameKeepsOrder(w: World, plan: Plan)
    ensures TakeName(w, plan).w.m.dev.store.order == w.m.dev.store.order
  {
    var t := RenameObject(w.m, plan.h, plan.newName);
    RequestsKeepOrder(w.m, plan.h, plan.newName, ROOT);
    if plan.taken.Some? {
      RequestsKeepOrder(t.m, plan.taken.value, plan.newName, ROOT);
    }
    hide RenameObject;
  }

  lemma OrderStays(w: World, plan: Plan)
    ensures CarryOut(w, plan).w.m.dev.store.order == w.m.dev.store.order
  {
    var a := SetAside(w, plan);
    var b := MoveOver(a.w, plan);
    var c := TakeName(b.w, plan);
    if plan.taken.Some? {
      RequestsKeepOrder(w.m, plan.taken.value, AsideName(plan.newName, w.host.count), ROOT);
      RequestsKeepOrder(c.w.m, plan.taken.value, "", ROOT);
    }
    RequestsKeepOrder(a.w.m, plan.h, "", plan.newParent);
    TakeNameKeepsOrder(b.w, plan);
    hide RenameObject, MoveObject, DeleteObject, TakeName, AsideName;
  }

  // ----- aside names -----

  lemma AsideDiffers(name: string, n: nat)
    ensures AsideName(name, n) != name
  {
    assert |AsideName(name, n)| > |name|;
  }

  lemma {:induction false} DecimalsDiffer(n: nat, m: nat)
    requires n != m
    ensures Decimal(n) != Decimal(m)
    decreases n + m
  {
    hide Decimal, Digit;
    DecimalEnds(n);
    DecimalEnds(m);
    if n % 10 != m % 10 {
      DigitsDiffer(n % 10, m % 10);
    } else if n >= 10 && m >= 10 {
      SameLastDigit(n, m);
      DecimalsDiffer(n / 10, m / 10);
    }
  }

  lemma SameLastDigit(n: nat, m: nat)
    requires n != m && n % 10 == m % 10
    ensures n / 10 != m / 10
  {
    assert n == 10 * (n / 10) + n % 10 && m == 10 * (m / 10) + m % 10;
  }

  lemma DigitsDiffer(d: nat, e: nat)
    requires d < 10 && e < 10 && d != e
    ensures Digit(d) != Digit(e)
  {
  }

  /** A number ends with its last digit, after the digits of a tenth of it. */
  lemma DecimalEnds(n: nat)
    ensures var a := Decimal(n);
      && a != [] && a[|a| - 1] == Digit(n % 10)
      && a[..|a| - 1] == if n < 10 then [] else Decimal(n / 10)
    ensures n >= 10 ==> Decimal(n / 10) != []
  {
  }

  lemma {:induction false} DecimalIsDigits(n: nat)
    ensures Decimal(n) != [] && '-' !in Decimal(n)
  {
    if n >= 10 {
      DecimalIsDigits(n / 10);
    }
  }

  /** An aside name has one reading: it ends in a dash and the digits of the number. */
  lemma AsideEnds(name: string, n: nat, i: nat)
    requires i < |Decimal(n)|
    ensures var s := AsideName(name, n);
      && |s| == |name| + 13 + |Decimal(n)|
      && s[|s| - 1 - i] != '-' && s[|s| - 1 - |Decimal(n)|] == '-'
      && s[|s| - |Decimal(n)|..] == Decimal(n) && s[..|name|] == name
  {
    DecimalIsDigits(n);
    var s, d := AsideName(name, n), Decimal(n);
    hide Decimal;
    assert |".bsdroid-old-"| == 13 && ".bsdroid-old-"[12] == '-';
    assert s[|s| - 1 - i] == d[|d| - 1 - i];
  }

  /** Two moves aside never meet: each name and each number give a name of their own. */
  lemma AsideNamesAreUnique(a: string, n: nat, b: string, m: nat)
    requires AsideName(a, n) == AsideName(b, m)
    ensures a == b && n == m
  {
    var x, y := |Decimal(n)|, |Decimal(m)|;
    DecimalIsDigits(n);
    DecimalIsDigits(m);
    AsideEnds(a, n, if y < x then y else 0);
    AsideEnds(b, m, if x < y then x else 0);
    if n != m {
      DecimalsDiffer(n, m);
    }
    hide Decimal, AsideName;
  }

  // ----- when a rename works, from what is known before it -----

  /** The target, when there is one, takes its aside name. */
  predicate AsideGoes(w: World, plan: Plan) {
    plan.taken.None? || Goes(w.m.dev, 0)
  }

  /** How many requests come before the move, and before the new name. */
  function MoveAt(plan: Plan): nat {
    if plan.taken.Some? then 1 else 0
  }

  function NameAt(plan: Plan): nat {
    MoveAt(plan) + (if plan.newParent != plan.oldParent then 1 else 0)
  }

  /** The source stays in its folder, or a device that can move takes it to the new one. */
  predicate MoveGoes(w: World, plan: Plan) {
    plan.newParent == plan.oldParent
    || (w.m.canMove && IsFolder(w.m.dev.store, plan.newParent) && Goes(w.m.dev, MoveAt(plan)))
  }

  /** The source keeps its name, or a device that can rename gives it the new one. */
  predicate NameGoes(w: World, plan: Plan) {
    OldName(w.tree, plan.h) == plan.newName || (w.m.canRename && Goes(w.m.dev, NameAt(plan)))
  }

  /** A device `n` requests later. */
  ghost predicate Later(d: Dev, d': Dev, n: nat) {
    forall k: nat :: ReplyAt(d', k) == ReplyAt(d, k + n)
  }

  lemma LaterGoes(d: Dev, d': Dev, n: nat, k: nat)
    ensures Later(d, d', n) ==> (Goes(d', k) <==> Goes(d, k + n))
  {
    hide ReplyAt;
  }

  lemma LaterInTurn(a: Dev, b: Dev, c: Dev, n: nat, m: nat)
    requires Later(a, b, n) && Later(b, c, m)
    ensures Later(a, c, n + m)
  {
    forall k: nat
      ensures ReplyAt(c, k) == ReplyAt(a, k + (n + m))
    {
      assert ReplyAt(c, k) == ReplyAt(b, k + m);
      assert ReplyAt(b, k + m) == ReplyAt(a, k + m + n);
    }
    hide ReplyAt;
  }

  lemma SetAsideGoes(w: World, plan: Plan)
    requires Sensible(w, plan)
    ensures SetAside(w, plan).rc == 0 <==> AsideGoes(w, plan)
    ensures var a := SetAside(w, plan).w;
      && a.m.canMove == w.m.canMove && a.m.canRename == w.m.canRename && a.tree.entries == w.tree.entries
      && Later(w.m.dev, a.m.dev, MoveAt(plan))
      && (forall h: Handle :: IsFolder(a.m.dev.store, h) <==> IsFolder(w.m.dev.store, h))
  {
    hide AsideName;
  }

  lemma MoveOverGoes(w: World, plan: Plan)
    requires plan.h in w.m.dev.store.objects
    ensures MoveOver(w, plan).rc == 0 <==>
      plan.newParent == plan.oldParent
      || (w.m.canMove && IsFolder(w.m.dev.store, plan.newParent) && Goes(w.m.dev, 0))
    ensures var b := MoveOver(w, plan);
      && b.w.m.canRename == w.m.canRename && b.w.tree == w.tree
      && (b.rc == 0 ==> Later(w.m.dev, b.w.m.dev, if plan.newParent != plan.oldParent then 1 else 0))
  {
  }

  lemma TakeNameGoes(w: World, plan: Plan)
    requires plan.h in w.m.dev.store.objects
    ensures TakeName(w, plan).rc == 0 <==>
      OldName(w.tree, plan.h) == plan.newName || (w.m.canRename && Goes(w.m.dev, 0))
  {
  }

  /** Each step of a rename goes exactly when its guard holds and the device does its request. */
  lemma StepsGo(w: World, plan: Plan)
    requires Sensible(w, plan)
    ensures var a := SetAside(w, plan); var b := MoveOver(a.w, plan);
      && (a.rc == 0 <==> AsideGoes(w, plan))
      && (a.rc == 0 ==> (b.rc == 0 <==> MoveGoes(w, plan)))
      && (a.rc == 0 && b.rc == 0 ==> (TakeName(b.w, plan).rc == 0 <==> NameGoes(w, plan)))
      && (a.rc == 0 && b.rc == 0 ==>
            b.w.m.canRename == w.m.canRename && Later(w.m.dev, b.w.m.dev, NameAt(plan)))
  {
    var a := SetAside(w, plan);
    var b := MoveOver(a.w, plan);
    SetAsideKeepsSource(w, plan);
    SetAsideGoes(w, plan);
    MoveOverMoves(a.w, plan);
    MoveOverGoes(a.w, plan);
    TakeNameGoes(b.w, plan);
    LaterGoes(w.m.dev, a.w.m.dev, MoveAt(plan), 0);
    hide SetAside, MoveOver, TakeName, AsideName, Goes, IsFolder, Later;
    if a.rc == 0 && b.rc == 0 {
      LaterInTurn(w.m.dev, a.w.m.dev, b.w.m.dev, MoveAt(plan), if plan.newParent != plan.oldParent then 1 else 0);
      LaterGoes(w.m.dev, b.w.m.dev, NameAt(plan), 0);
    }
  }

  /** A rename answers 0 exactly when all three go. */
  lemma RenameAnswersIff(w: World, plan: Plan)
    requires Sensible(w, plan)
    ensures CarryOut(w, plan).rc == 0 <==> AsideGoes(w, plan) && MoveGoes(w, plan) && NameGoes(w, plan)
  {
    StepsGo(w, plan);
    hide SetAside, MoveOver, TakeName, ClearAside, AsideGoes, MoveGoes, NameGoes;
  }

  // ----- when an error is undone -----

  /** What an error leaves as it was: a target that does not move aside; a move that is refused
      with no target aside; and a name that is refused in the one folder, when no target is
      aside or the device gives it its name back. */
  predicate Undone(w: World, plan: Plan) {
    if !AsideGoes(w, plan) then true
    else if !MoveGoes(w, plan) then plan.taken.None?
    else plan.newParent == plan.oldParent
         && (plan.taken.None? || (w.m.canRename && Goes(w.m.dev, NameAt(plan) + 1)))
  }

  /** An error of a rename leaves the objects as they were exactly then. A fault after a move to
      another folder is never undone. */
  lemma ErrorIsUndoneIff(w: World, plan: Plan)
    requires Sensible(w, plan) && CarryOut(w, plan).rc != 0
    requires plan.taken.Some? ==> w.m.dev.store.objects[plan.taken.value].name == plan.newName
    ensures CarryOut(w, plan).w.m.dev.store.objects == w.m.dev.store.objects <==> Undone(w, plan)
  {
    hide AsideName, SetAside, MoveOver, TakeName, ClearAside, AsideGoes, MoveGoes, NameGoes, Goes, Later;
    var objects := w.m.dev.store.objects;
    var a := SetAside(w, plan);
    var b := MoveOver(a.w, plan);
    SetAsideKeepsSource(w, plan);
    MoveOverMoves(a.w, plan);
    StepsGo(w, plan);
    AsideDiffers(plan.newName, w.host.count);
    if a.rc == 0 && b.rc != 0 {
      assert plan.taken.Some? ==> a.w.m.dev.store.objects[plan.taken.value].name != objects[plan.taken.value].name;
    } else if a.rc == 0 {
      NameFaultLeaves(w, plan);
      LaterGoes(w.m.dev, b.w.m.dev, NameAt(plan), 1);
    }
  }

  /** The two requests of a new name that is refused: the name, and the target's own name back. */
  lemma RefusedName(w: World, plan: Plan)
    requires plan.h in w.m.dev.store.objects && TakeName(w, plan).rc != 0
    requires plan.taken.Some? ==> plan.taken.value in w.m.dev.store.objects
    ensures TakeName(w, plan).w.m.dev.store.objects ==
      if plan.taken.Some? && w.m.canRename && Goes(w.m.dev, 1) then
        w.m.dev.store.objects[plan.taken.value := w.m.dev.store.objects[plan.taken.value].(name := plan.newName)]
      else w.m.dev.store.objects
  {
  }

  /** A rename of the source that faults: what the steps after it leave. */
  lemma NameFaultLeaves(w: World, plan: Plan)
    requires Sensible(w, plan)
    requires plan.taken.Some? ==> w.m.dev.store.objects[plan.taken.value].name == plan.newName
    requires var a := SetAside(w, plan); var b := MoveOver(a.w, plan);
      a.rc == 0 && b.rc == 0 && TakeName(b.w, plan).rc != 0
    ensures var b := MoveOver(SetAside(w, plan).w, plan);
      TakeName(b.w, plan).w.m.dev.store.objects == w.m.dev.store.objects <==>
        plan.newParent == plan.oldParent && (plan.taken.None? || (b.w.m.canRename && Goes(b.w.m.dev, 1)))
  {
    hide AsideName, SetAside, MoveOver, TakeName, Goes;
    var objects := w.m.dev.store.objects;
    var a := SetAside(w, plan);
    var b := MoveOver(a.w, plan);
    SetAsideKeepsSource(w, plan);
    MoveOverMoves(a.w, plan);
    RefusedName(b.w, plan);
    AsideDiffers(plan.newName, w.host.count);
    var moved := b.w.m.dev.store.objects;
    var left := TakeName(b.w, plan).w.m.dev.store.objects;
    assert left[plan.h].parent == plan.newParent;
    assert objects[plan.h].parent == plan.oldParent;
    assert objects[plan.h].(parent := plan.oldParent) == objects[plan.h];
    if plan.taken.Some? {
      var t := plan.taken.value;
      assert objects[t].(name := plan.newName) == objects[t];
      assert moved[t] == objects[t].(name := AsideName(plan.newName, w.host.count));
      if left == moved {
        assert left[t] != objects[t];
      } else if plan.newParent == plan.oldParent {
        assert left == objects;
      }
    } else if plan.newParent == plan.oldParent {
      assert left == objects;
    }
  }
}
