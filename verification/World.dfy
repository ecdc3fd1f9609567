/** The mount as a value, and each FUSE callback as a function on it.
    `crates/mtpfs/src/main.rs`. The methods of `Fs` compute these functions step by step. */
module World {
  import opened Bytes
  import opened Wrappers
  import opened PathTree
  import opened Device
  import opened Backend
  import Host

  const ENOENT := 2
  const EIO := 5
  const ENOTDIR := 20
  const EISDIR := 21
  const ENOSPC := 28
  const EROFS := 30
  const ENOTSUP := 45

  const FH_WRITER := 0x1_0000_0000
  const READ_CHUNK := 1024 * 1024
  const MAX_WALK := 64
  const U64_MAX := 0xffff_ffff_ffff_ffff

  /** A file a program is writing. The spool file is named by its number. */
  datatype Pending = Pending(
    parent: Handle, name: string, spool: nat, size: nat, sent: Option<int>,
    replaced: Option<Handle>, broken: Option<Host.Errno>, keepSpool: bool)

  datatype World = World(m: MtpState, tree: TreeState, host: Host.HostState, pending: map<string, Pending>)

  /** A callback's answer: the mount after it, and the number it gives back. */
  datatype Outcome = Outcome(w: World, rc: int)

  // ----- handles and flags -----

  function FhHandle(fh: nat): Handle {
    fh % 0x1_0000_0000
  }

  predicate FhMarked(fh: nat) {
    fh / 0x1_0000_0000 % 2 == 1
  }

  /** With no handle from the kernel, the path decides. */
  predicate FhWrites(fi: Option<nat>) {
    fi.Some? ==> FhMarked(fi.value)
  }

  predicate FlagWrites(flags: nat) {
    flags % 4 == 1 || flags % 4 == 2
  }

  predicate FlagTruncates(flags: nat) {
    flags / 0x400 % 2 == 1
  }

  function AsI32(n: nat): int {
    var low := n % 0x1_0000_0000;
    if low < 0x8000_0000 then low else low - 0x1_0000_0000
  }

  /** The handle stays readable beside the writer mark, and the mark beside the handle. */
  lemma MarkAndHandle(h: Handle)
    ensures FhHandle(h + FH_WRITER) == h && FhMarked(h + FH_WRITER)
    ensures FhHandle(h) == h && !FhMarked(h)
  {
  }

  // ----- names -----

  function Digit(d: nat): char
    requires d < 10
  {
    "0123456789"[d]
  }

  function Decimal(n: nat): string {
    if n < 10 then [Digit(n)] else Decimal(n / 10) + [Digit(n % 10)]
  }

  function AsideName(name: string, n: nat): string {
    name + ".bsdroid-old-" + Decimal(n)
  }

  /** The place of the last separator. */
  function LastSlash(path: string): (r: Option<nat>)
    ensures r.Some? ==> r.value < |path|
  {
    if path == [] then None
    else if path[|path| - 1] == '/' then Some(|path| - 1)
    else LastSlash(path[..|path| - 1])
  }

  /** `split_parent`: the folder and the name. */
  function SplitParent(path: string): (string, string) {
    match LastSlash(path)
    case None => ("/", path)
    case Some(i) => if i == 0 then ("/", path[1..]) else (path[..i], path[i + 1..])
  }

  // ----- paths -----

  datatype Resolved = Resolved(w: World, h: Option<Handle>)

  function Listed(w: World, did: Did<seq<Entry>>, folder: Handle): World {
    var w' := w.(m := w.m.(dev := did.dev));
    if did.verdict.Done? then w'.(tree := WithChildren(w.tree, folder, did.value)) else w'
  }

  function ResolveLoop(w: World, parts: seq<string>, rounds: nat): Resolved
    decreases rounds
  {
    if rounds == 0 then Resolved(w, None)
    else
      match LookupFrom(w.tree, ROOT, parts)
      case Found(h) => Resolved(w, Some(h))
      case NotFound => Resolved(w, None)
      case NeedListing(folder) =>
        var did := Device.List(w.m.dev, folder);
        if did.verdict.Done? then ResolveLoop(Listed(w, did, folder), parts, rounds - 1)
        else Resolved(Listed(w, did, folder), None)
  }

  function Resolve(w: World, path: string): Resolved {
    ResolveLoop(w, Split(path), MAX_WALK)
  }

  function EntryAt(t: TreeState, h: Handle): Option<Entry> {
    if h in t.entries then Some(t.entries[h]) else None
  }

  function Forgot(w: World, folder: Handle): World {
    w.(tree := Forget(w.tree, folder))
  }

  // ----- the spool -----

  /** `Pending::drop`: the spool goes, unless it must stay. */
  function Dropped(h: Host.HostState, p: Pending): Host.HostState {
    if p.keepSpool then h else Host.Remove(h, p.spool)
  }

  /** Puts an entry in the map; an entry it pushes out drops. */
  function Inserted(w: World, path: string, p: Pending): World {
    var host := if path in w.pending then Dropped(w.host, w.pending[path]) else w.host;
    w.(host := host, pending := w.pending[path := p])
  }

  datatype Copied = Copied(w: World, size: Option<nat>)

  function CopyLoop(w: World, h: Handle, size: nat, spool: nat, at: nat): Copied
    decreases size - at
  {
    if at >= size then Copied(w, Some(at))
    else
      var r := ReadAt(w.m, h, at, Min(READ_CHUNK, size - at), size);
      var w1 := w.(m := r.m);
      if r.bytes.None? then Copied(w1, None)
      else if r.bytes.value == [] then Copied(w1, Some(at))
      else
        var put := Host.Append(w1.host, spool, r.bytes.value);
        var w2 := w1.(host := put.h);
        if !put.ok then Copied(w2, None)
        else CopyLoop(w2, h, size, spool, at + |r.bytes.value|)
  }

  function NewPending(parent: Handle, name: string, spool: nat, size: nat,
                      replaced: Option<Handle>): Pending {
    Pending(parent, name, spool, size, None, replaced, None, false)
  }

  /** The rest of `adopt_for_write`, once the spool folder has room. */
  function AdoptNow(w: World, path: string, h: Handle, entry: Entry, keep: bool): Outcome {
    var made := Host.MakeSpool(w.host);
    var w1 := w.(host := made.h);
    if made.id.None? then Outcome(w1, -EIO)
    else
      var copied := if keep && entry.size > 0 then CopyLoop(w1, h, entry.size, made.id.value, 0) else Copied(w1, Some(0));
      if copied.size.None? then Outcome(copied.w, -EIO)
      else
        Outcome(Inserted(copied.w, path, NewPending(entry.parent, entry.name, made.id.value, copied.size.value, Some(h))), 0)
  }

  function AdoptForWrite(w: World, path: string, h: Handle, entry: Entry, keep: bool): Outcome {
    if keep && entry.size > 0 then
      var free := Host.Now(w.host).free;
      var w1 := w.(host := Host.Used(w.host));
      if free.Some? && entry.size > free.value then Outcome(w1, -ENOSPC)
      else AdoptNow(w1, path, h, entry, keep)
    else AdoptNow(w, path, h, entry, keep)
  }

  // ----- open, create, write -----

  datatype Opened = Opened(w: World, rc: int, fh: Option<nat>)

  function Open(w: World, path: string, fi: Option<nat>): Opened {
    var flags := if fi.Some? then fi.value else 0;
    var found := Resolve(w, path);
    if found.h.None? then Opened(found.w, -ENOENT, None)
    else
      var h := found.h.value;
      var entry := EntryAt(found.w.tree, h);
      if entry.None? || entry.value.isDir then Opened(found.w, -EISDIR, None)
      else
        var adopted :=
          if FlagWrites(flags) && path !in found.w.pending
          then AdoptForWrite(found.w, path, h, entry.value, !FlagTruncates(flags))
          else Outcome(found.w, 0);
        if adopted.rc != 0 then Opened(adopted.w, adopted.rc, None)
        else Opened(adopted.w, 0, if fi.Some? then Some(h + (if FlagWrites(flags) then FH_WRITER else 0)) else None)
  }

  function Create(w: World, path: string, fi: Option<nat>): Opened {
    var (dir, name) := SplitParent(path);
    if name == "" then Opened(w, -EIO, None)
    else
      var parent := Resolve(w, dir);
      if parent.h.None? then Opened(parent.w, -ENOENT, None)
      else
        var made := Host.MakeSpool(parent.w.host);
        var w1 := parent.w.(host := made.h);
        if made.id.None? then Opened(w1, -EIO, None)
        else
          Opened(Inserted(w1, path, NewPending(parent.h.value, name, made.id.value, 0, None)), 0,
                 if fi.Some? then Some(FH_WRITER) else None)
  }

  function Write(w: World, path: string, bytes: seq<Byte>, offset: nat): Outcome {
    if path !in w.pending then Outcome(w, -EROFS)
    else
      var p := w.pending[path];
      var put := Host.WriteLoop(w.host, p.spool, offset, bytes);
      var w1 := w.(host := put.h);
      match put.end
      case Fault(errno) => Outcome(w1.(pending := w.pending[path := p.(broken := Some(errno))]), -(errno as int))
      case Short => Outcome(w1.(pending := w.pending[path := p.(broken := Some(ENOSPC))]), -ENOSPC)
      case Whole =>
        var end := offset + |bytes|;
        Outcome(w1.(pending := w.pending[path := if end > p.size then p.(size := end) else p]), AsI32(|bytes|))
  }

  // ----- the send -----

  datatype Sent = Sent(w: World, p: Pending, rc: int)

  /** The new contents go out under the real name; the old object, when the device still
      holds it, goes away after they arrive, or gets its name back when they do not. */
  function SendContents(w: World, p: Pending, oldCopyExists: bool): Sent {
    var t := SendObjectStream(w.m, p.parent, p.name, Host.Contents(w.host, p.spool), p.size);
    var w1 := w.(m := t.m);
    var done := p.(replaced := None);
    if t.ok then
      var w2 := if p.replaced.Some? then w1.(m := DeleteObject(w1.m, p.replaced.value).m) else w1;
      Sent(Forgot(w2, p.parent), done, 0)
    else
      var w2 := if p.replaced.Some? then w1.(m := RenameObject(w1.m, p.replaced.value, p.name).m) else w1;
      Sent(Forgot(w2, p.parent), if oldCopyExists then done else done.(keepSpool := true), -EIO)
  }

  /** Two copies fit: the old object moves aside first. */
  function SendBeside(w: World, p: Pending, prev: Handle): Sent {
    var aside := AsideName(p.name, w.host.count);
    var w1 := w.(host := Host.Numbered(w.host));
    var t := RenameObject(w1.m, prev, aside);
    var w2 := w1.(m := t.m);
    if t.ok then SendContents(w2, p, true) else Sent(w2, p, -EIO)
  }

  /** Two copies do not fit: the old object goes first, and the spool is the only copy. */
  function SendInPlace(w: World, p: Pending, prev: Handle): Sent {
    var t := DeleteObject(w.m, prev);
    var w1 := w.(m := t.m);
    if t.ok then SendContents(w1, p.(replaced := None), false) else Sent(w1, p, -EIO)
  }

  /** The free space the send goes by: the device's answer, or without one no limit. */
  function FreeSpace(d: Dev): nat {
    var did := Device.Storage(d);
    if did.verdict.Done? then did.value else U64_MAX
  }

  function OldSize(t: TreeState, prev: Handle): nat {
    if prev in t.entries then t.entries[prev].size else 0
  }

  function SendOver(w: World, p: Pending, prev: Handle): Sent {
    var free := FreeSpace(w.m.dev);
    var w1 := w.(m := w.m.(dev := Device.Storage(w.m.dev).dev));
    if free >= p.size then SendBeside(w1, p, prev)
    else if Min(free + OldSize(w.tree, prev), U64_MAX) >= p.size then SendInPlace(w1, p, prev)
    else Sent(w1, p, -ENOSPC)
  }

  function SendPending(w: World, p: Pending): Sent {
    if p.broken.Some? then Sent(w, p, -(p.broken.value as int))
    else
      var sought := Host.SeekStart(w.host);
      var w1 := w.(host := sought.h);
      if !sought.ok then Sent(w1, p, -EIO)
      else if p.replaced.Some? then SendOver(w1, p, p.replaced.value)
      else SendContents(w1, p, true)
  }

  // ----- flush, release, truncate -----

  function Flush(w: World, path: string, fi: Option<nat>): Outcome {
    if !FhWrites(fi) || path !in w.pending then Outcome(w, 0)
    else
      var p := w.pending[path];
      var out := w.(pending := w.pending - {path});
      if p.sent.Some? then Outcome(out.(pending := out.pending[path := p]), p.sent.value)
      else
        var s := SendPending(out, p);
        Outcome(s.w.(pending := s.w.pending[path := s.p.(sent := Some(s.rc))]), s.rc)
  }

  function Release(w: World, path: string, fi: Option<nat>): Outcome {
    if !FhWrites(fi) || path !in w.pending then Outcome(w, 0)
    else
      var p := w.pending[path];
      var out := w.(pending := w.pending - {path});
      if p.sent.Some? then Outcome(out.(host := Dropped(out.host, p)), 0)
      else
        var s := SendPending(out, p);
        Outcome(s.w.(host := Dropped(s.w.host, s.p)), 0)
  }

  /** `truncate` of a file some program holds open for writing. */
  function TruncateOpen(w: World, path: string, size: nat): Outcome
    requires path in w.pending
  {
    var p := w.pending[path];
    var t := Host.SetLen(w.host, p.spool, size);
    var w1 := w.(host := t.h);
    if !t.ok then Outcome(w1, -EIO)
    else Outcome(w1.(pending := w.pending[path := p.(size := size)]), 0)
  }

  /** `truncate` on its own adopts a spool, and sends it at once. */
  function TruncateClosed(w: World, path: string, size: nat): Outcome {
    var found := Resolve(w, path);
    if found.h.None? then Outcome(found.w, -ENOENT)
    else
      var entry := EntryAt(found.w.tree, found.h.value);
      if entry.None? || entry.value.isDir then Outcome(found.w, -EISDIR)
      else
        var adopted := AdoptForWrite(found.w, path, found.h.value, entry.value, size > 0);
        if adopted.rc != 0 || path !in adopted.w.pending then Outcome(adopted.w, adopted.rc)
        else
          var cut := TruncateOpen(adopted.w, path, size);
          if cut.rc != 0 || path !in cut.w.pending then cut
          else
            var p := cut.w.pending[path];
            var s := SendPending(cut.w.(pending := cut.w.pending - {path}), p);
            Outcome(s.w.(host := Dropped(s.w.host, s.p)), s.rc)
  }

  function Truncate(w: World, path: string, size: nat): Outcome {
    if path in w.pending then TruncateOpen(w, path, size) else TruncateClosed(w, path, size)
  }

  // ----- read -----

  datatype ReadOut = ReadOut(w: World, r: Result<seq<Byte>, int>)

  function ReadPending(w: World, p: Pending, want: nat, offset: nat): ReadOut {
    if offset >= p.size then ReadOut(w, Success([]))
    else
      var r := Host.ReadSpool(w.host, p.spool, offset, Min(want, p.size - offset));
      ReadOut(w.(host := r.h), if r.bytes.None? then Failure(-EIO) else Success(r.bytes.value))
  }

  function ReadObject(w: World, h: Handle, want: nat, offset: nat): ReadOut {
    var entry := EntryAt(w.tree, h);
    if entry.None? then ReadOut(w, Failure(-ENOENT))
    else if offset >= entry.value.size then ReadOut(w, Success([]))
    else
      var r := ReadAt(w.m, h, offset, Min(want, entry.value.size - offset), entry.value.size);
      ReadOut(w.(m := r.m), if r.bytes.None? then Failure(-EIO) else Success(r.bytes.value))
  }

  function Read(w: World, path: string, want: nat, offset: nat, fi: Option<nat>): ReadOut {
    if path in w.pending then ReadPending(w, w.pending[path], want, offset)
    else if fi.Some? && FhHandle(fi.value) != 0 then ReadObject(w, FhHandle(fi.value), want, offset)
    else
      var found := Resolve(w, path);
      if found.h.None? then ReadOut(found.w, Failure(-ENOENT)) else ReadObject(found.w, found.h.value, want, offset)
  }

  // ----- folders -----

  function RemovePath(w: World, path: string, wantDir: bool): Outcome {
    var found := Resolve(w, path);
    if found.h.None? then Outcome(found.w, -ENOENT)
    else if found.h.value == ROOT then Outcome(found.w, -EIO)
    else
      var entry := EntryAt(found.w.tree, found.h.value);
      if entry.None? then Outcome(found.w, -ENOENT)
      else if entry.value.isDir != wantDir then Outcome(found.w, if wantDir then -ENOTDIR else -EISDIR)
      else
        var t := DeleteObject(found.w.m, found.h.value);
        var w1 := found.w.(m := t.m);
        if t.ok then Outcome(Forgot(w1, entry.value.parent), 0) else Outcome(w1, -EIO)
  }

  function Mkdir(w: World, path: string): Outcome {
    var (dir, name) := SplitParent(path);
    if name == "" then Outcome(w, -EIO)
    else
      var parent := Resolve(w, dir);
      if parent.h.None? then Outcome(parent.w, -ENOENT)
      else
        var t := MakeFolder(parent.w.m, parent.h.value, name);
        var w1 := parent.w.(m := t.m);
        if t.ok then Outcome(Forgot(w1, parent.h.value), 0) else Outcome(w1, -EIO)
  }

  /** The folder a listing callback shows, read when the tree does not hold it. */
  function ReadFolder(w: World, path: string): Outcome {
    var found := Resolve(w, path);
    if found.h.None? then Outcome(found.w, -ENOENT)
    else if found.h.value in found.w.tree.listed then Outcome(found.w, 0)
    else
      var did := Device.List(found.w.m.dev, found.h.value);
      Outcome(Listed(found.w, did, found.h.value), if did.verdict.Done? then 0 else -EIO)
  }

  // ----- rename -----

  /** What a rename found out before it changed anything. */
  datatype Plan = Plan(h: Handle, oldParent: Handle, newParent: Handle, newName: string, taken: Option<Handle>)

  datatype Planned = Planned(w: World, r: Result<Plan, int>)

  /** The checks of a rename. A rename of a file onto itself ends here, with 0. */
  function PlanRename(w: World, from: string, to: string): Planned {
    var a := Resolve(w, from);
    if a.h.None? then Planned(a.w, Failure(-ENOENT))
    else if a.h.value == ROOT then Planned(a.w, Failure(-EIO))
    else
      var (oldDir, _) := SplitParent(from);
      var (newDir, newName) := SplitParent(to);
      if newName == "" then Planned(a.w, Failure(-EIO))
      else
        var b := Resolve(a.w, oldDir);
        if b.h.None? then Planned(b.w, Failure(-ENOENT))
        else
          var c := Resolve(b.w, newDir);
          if c.h.None? then Planned(c.w, Failure(-ENOENT))
          else
            var d := Resolve(c.w, to);
            if d.h == a.h then Planned(d.w, Failure(0))
            else if d.h == Some(ROOT) then Planned(d.w, Failure(-EIO))
            else Planned(d.w, Success(Plan(a.h.value, b.h.value, c.h.value, newName, d.h)))
  }

  /** The object that holds the new name moves aside. */
  function SetAside(w: World, plan: Plan): Outcome {
    if plan.taken.None? then Outcome(w, 0)
    else
      var aside := AsideName(plan.newName, w.host.count);
      var w1 := w.(host := Host.Numbered(w.host));
      var t := RenameObject(w1.m, plan.taken.value, aside);
      var w2 := w1.(m := t.m);
      if t.ok then Outcome(Forgot(w2, plan.newParent), 0) else Outcome(w2, -EIO)
  }

  function MoveOver(w: World, plan: Plan): Outcome {
    if plan.newParent == plan.oldParent then Outcome(w, 0)
    else if !w.m.canMove then Outcome(w, -ENOTSUP)
    else
      var t := MoveObject(w.m, plan.h, plan.newParent);
      Outcome(w.(m := t.m), if t.ok then 0 else -EIO)
  }

  /** The old name, as the tree remembers it. */
  function OldName(t: TreeState, h: Handle): string {
    if h in t.entries then t.entries[h].name else ""
  }

  function TakeName(w: World, plan: Plan): Outcome {
    if OldName(w.tree, plan.h) == plan.newName then Outcome(w, 0)
    else if !w.m.canRename then Outcome(w, -ENOTSUP)
    else
      var t := RenameObject(w.m, plan.h, plan.newName);
      var w1 := w.(m := t.m);
      if t.ok then Outcome(w1, 0)
      else
        var w2 := if plan.taken.Some? then w1.(m := RenameObject(w1.m, plan.taken.value, plan.newName).m) else w1;
        Outcome(Forgot(w2, plan.newParent), -EIO)
  }

  function ClearAside(w: World, plan: Plan): World {
    var w1 := if plan.taken.Some? then w.(m := DeleteObject(w.m, plan.taken.value).m) else w;
    Forgot(Forgot(w1, plan.oldParent), plan.newParent)
  }

  /** The steps of a rename that change the device. */
  function CarryOut(w: World, plan: Plan): Outcome {
    var a := SetAside(w, plan);
    if a.rc != 0 then a
    else
      var b := MoveOver(a.w, plan);
      if b.rc != 0 then b
      else
        var c := TakeName(b.w, plan);
        if c.rc != 0 then c else Outcome(ClearAside(c.w, plan), 0)
  }

  function Rename(w: World, from: string, to: string): Outcome {
    var planned := PlanRename(w, from, to);
    match planned.r
    case Failure(rc) => Outcome(planned.w, rc)
    case Success(plan) => CarryOut(planned.w, plan)
  }
}
