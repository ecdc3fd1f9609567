/** The mount as the callbacks update it, step by step, against the functions of `World`.
    `crates/mtpfs/src/main.rs`. */
module Fs {
  import opened Bytes
  import opened Wrappers
  import opened PathTree
  import opened Backend
  import opened World
  import Mount = World
  import Device
  import Host
  import MtpSession

  class Fs {
    const mtp: MtpSession.Mtp
    const tree: Tree
    const disk: Host.Disk
    var pending: map<string, Pending>

    function Now(): World
      reads this, mtp, tree, disk
    {
      World(mtp.State(), tree.State(), disk.State(), pending)
    }

    constructor (mtp: MtpSession.Mtp, disk: Host.Disk)
      ensures this.mtp == mtp && this.disk == disk && fresh(tree)
      ensures Now() == World(mtp.State(), TreeState(map[], map[], {}), disk.State(), map[])
    {
      this.mtp := mtp;
      this.disk := disk;
      tree := new Tree();
      pending := map[];
    }

    /** `resolve`: at most 64 listings. */
    method Resolve(path: string) returns (h: Option<Handle>)
      modifies mtp, tree
      ensures Resolved(Now(), h) == Mount.Resolve(old(Now()), path)
    {
      hide Device.List, LookupFrom, WithChildren, Split;
      for i := 0 to MAX_WALK
        invariant ResolveLoop(Now(), Split(path), MAX_WALK - i) == ResolveLoop(old(Now()), Split(path), MAX_WALK)
        invariant pending == old(pending) && disk.State() == old(disk.State())
      {
        var found := tree.Lookup(path);
        match found {
          case Found(k) => return Some(k);
          case NotFound => return None;
          case NeedListing(folder) =>
            var entries := mtp.List(folder);
            if entries.None? {
              return None;
            }
            tree.SetChildren(folder, entries.value);
        }
      }
      h := None;
    }

    /** Fills a spool with an object, and gives the count of bytes. */
    method CopyObjectToSpool(h: Handle, size: nat, spool: nat) returns (n: Option<nat>)
      modifies mtp, disk
      ensures Copied(Now(), n) == CopyLoop(old(Now()), h, size, spool, 0)
    {
      hide Backend.ReadAt, Host.Append;
      var at := 0;
      while at < size
        invariant CopyLoop(Now(), h, size, spool, at) == CopyLoop(old(Now()), h, size, spool, 0)
      {
        var want := Min(READ_CHUNK, size - at);
        var data := mtp.ReadAt(h, at, want, size);
        if data.None? {
          return None;
        }
        if data.value == [] {
          break;
        }
        var ok := disk.WriteAll(spool, data.value);
        if !ok {
          return None;
        }
        at := at + |data.value|;
      }
      n := Some(at);
    }

    /** Removes the spool of an entry that goes, unless it must stay. */
    method Drop(p: Pending)
      modifies disk
      ensures disk.State() == Dropped(old(disk.State()), p)
    {
      if p.keepSpool {
        return;
      }
      disk.RemoveFile(p.spool);
    }

    method Insert(path: string, p: Pending)
      modifies `pending, disk
      ensures Now() == Inserted(old(Now()), path, p)
    {
      if path in pending {
        Drop(pending[path]);
      }
      pending := pending[path := p];
    }

    method AdoptForWrite(path: string, h: Handle, entry: Entry, keep: bool) returns (rc: int)
      modifies this, mtp, disk
      ensures Outcome(Now(), rc) == Mount.AdoptForWrite(old(Now()), path, h, entry, keep)
    {
      hide CopyLoop, Inserted, Host.MakeSpool;
      if keep && entry.size > 0 {
        var free := disk.FreeBytes();
        if free.Some? && entry.size > free.value {
          return -ENOSPC;
        }
      }
      var spool := disk.CreateSpool();
      if spool.None? {
        return -EIO;
      }
      var size := 0;
      if keep && entry.size > 0 {
        var copied := CopyObjectToSpool(h, entry.size, spool.value);
        if copied.None? {
          return -EIO;
        }
        size := copied.value;
      }
      Insert(path, Pending(entry.parent, entry.name, spool.value, size, None, Some(h), None, false));
      rc := 0;
    }

    method Open(path: string, fi: Option<nat>) returns (rc: int, fh: Option<nat>)
      modifies this, mtp, tree, disk
      ensures Opened(Now(), rc, fh) == Mount.Open(old(Now()), path, fi)
    {
      hide Mount.Resolve, Mount.AdoptForWrite, FlagWrites, FlagTruncates;
      var flags := if fi.Some? then fi.value else 0;
      var found := Resolve(path);
      if found.None? {
        return -ENOENT, None;
      }
      var entry := tree.Get(found.value);
      if entry.None? || entry.value.isDir {
        return -EISDIR, None;
      }
      if FlagWrites(flags) && path !in pending {
        var keep := !FlagTruncates(flags);
        var r := AdoptForWrite(path, found.value, entry.value, keep);
        if r != 0 {
          return r, None;
        }
      }
      var mark := if FlagWrites(flags) then FH_WRITER else 0;
      rc := 0;
      fh := if fi.Some? then Some(found.value + mark) else None;
    }

    method Create(path: string, fi: Option<nat>) returns (rc: int, fh: Option<nat>)
      modifies this, mtp, tree, disk
      ensures Opened(Now(), rc, fh) == Mount.Create(old(Now()), path, fi)
    {
      hide Mount.Resolve, SplitParent, Inserted, Host.MakeSpool;
      var (dir, name) := SplitParent(path);
      if name == "" {
        return -EIO, None;
      }
      var parent := Resolve(dir);
      if parent.None? {
        return -ENOENT, None;
      }
      var spool := disk.CreateSpool();
      if spool.None? {
        return -EIO, None;
      }
      Insert(path, Pending(parent.value, name, spool.value, 0, None, None, None, false));
      rc := 0;
      fh := if fi.Some? then Some(FH_WRITER) else None;
    }

    /** The loop of a write: each call on the disk takes what it can. */
    method WriteSpool(id: nat, offset: nat, bytes: seq<Byte>) returns (end: Host.WriteEnd)
      modifies disk
      ensures Host.Written(disk.State(), end) == Host.WriteLoop(old(disk.State()), id, offset, bytes)
    {
      hide Host.Splice;
      var done := 0;
      assert bytes[done..] == bytes;
      while done < |bytes|
        invariant done <= |bytes|
        invariant Host.WriteLoop(disk.State(), id, offset + done, bytes[done..])
               == Host.WriteLoop(old(disk.State()), id, offset, bytes)
        decreases |bytes| - done
      {
        var n := disk.WriteAt(id, offset + done, bytes[done..]);
        match n {
          case Failure(errno) => return Host.Fault(errno);
          case Success(count) =>
            if count == 0 {
              return Host.Short;
            }
            assert bytes[done..][count..] == bytes[done + count..];
            done := done + count;
        }
      }
      end := Host.Whole;
    }

    method Write(path: string, bytes: seq<Byte>, offset: nat) returns (rc: int)
      modifies this, disk
      ensures Outcome(Now(), rc) == Mount.Write(old(Now()), path, bytes, offset)
    {
      hide Host.WriteLoop, AsI32;
      if path !in pending {
        return -EROFS;
      }
      var p := pending[path];
      var put := WriteSpool(p.spool, offset, bytes);
      match put {
        case Fault(errno) =>
          pending := pending[path := p.(broken := Some(errno))];
          rc := -(errno as int);
        case Short =>
          pending := pending[path := p.(broken := Some(ENOSPC))];
          rc := -ENOSPC;
        case Whole =>
          var end := offset + |bytes|;
          if end > p.size {
            p := p.(size := end);
          }
          pending := pending[path := p];
          rc := AsI32(|bytes|);
      }
    }

    // ----- the send -----

    /** Sends the contents of a spool under the real name, and clears up after it. */
    method SendSpool(p: Pending, oldCopyExists: bool) returns (done: Pending, rc: int)
      modifies mtp, tree
      ensures Sent(Now(), done, rc) == SendContents(old(Now()), p, oldCopyExists)
    {
      hide Backend.SendObjectStream, Backend.RenameObject, Backend.DeleteObject;
      done := p.(replaced := None);
      var ok := mtp.SendObjectStream(p.parent, p.name, Host.Contents(disk.State(), p.spool), p.size);
      if ok {
        if p.replaced.Some? {
          var cleared := mtp.DeleteObject(p.replaced.value);
        }
        tree.ForgetListing(p.parent);
        rc := 0;
      } else {
        if p.replaced.Some? {
          var back := mtp.RenameObject(p.replaced.value, p.name);
        }
        if !oldCopyExists {
          done := done.(keepSpool := true);
        }
        tree.ForgetListing(p.parent);
        rc := -EIO;
      }
    }

    method SendPending(entry: Pending) returns (p: Pending, rc: int)
      modifies mtp, tree, disk
      ensures Sent(Now(), p, rc) == Mount.SendPending(old(Now()), entry)
    {
      hide SendContents, AsideName, Backend.RenameObject, Backend.DeleteObject, Device.Storage;
      p := entry;
      if p.broken.Some? {
        return p, -(p.broken.value as int);
      }
      var ok := disk.Rewind();
      if !ok {
        return p, -EIO;
      }
      var oldCopyExists := true;
      if p.replaced.Some? {
        var prev := p.replaced.value;
        var known := tree.Get(prev);
        var oldSize := if known.Some? then known.value.size else 0;
        var info := mtp.StorageInfo();
        var free := if info.Some? then info.value else U64_MAX;
        if free >= p.size {
          var n := disk.TakeNumber();
          var aside := mtp.RenameObject(prev, AsideName(p.name, n));
          if !aside {
            return p, -EIO;
          }
        } else if Min(free + oldSize, U64_MAX) >= p.size {
          var gone := mtp.DeleteObject(prev);
          if !gone {
            return p, -EIO;
          }
          p := p.(replaced := None);
          oldCopyExists := false;
        } else {
          return p, -ENOSPC;
        }
      }
      p, rc := SendSpool(p, oldCopyExists);
    }

    method Flush(path: string, fi: Option<nat>) returns (rc: int)
      modifies this, mtp, tree, disk
      ensures Outcome(Now(), rc) == Mount.Flush(old(Now()), path, fi)
    {
      hide Mount.SendPending, FhWrites;
      if !FhWrites(fi) || path !in pending {
        return 0;
      }
      var p := pending[path];
      pending := pending - {path};
      if p.sent.Some? {
        rc := p.sent.value;
      } else {
        p, rc := SendPending(p);
        p := p.(sent := Some(rc));
      }
      pending := pending[path := p];
    }

    method Release(path: string, fi: Option<nat>) returns (rc: int)
      modifies this, mtp, tree, disk
      ensures Outcome(Now(), rc) == Mount.Release(old(Now()), path, fi)
    {
      hide Mount.SendPending, FhWrites, Dropped;
      rc := 0;
      if !FhWrites(fi) || path !in pending {
        return;
      }
      var p := pending[path];
      pending := pending - {path};
      if p.sent.None? {
        var unheard;
        p, unheard := SendPending(p);
      }
      Drop(p);
    }

    /** The change of size of an open file. */
    method CutOpen(path: string, size: nat) returns (rc: int)
      requires path in pending
      modifies this, disk
      ensures Outcome(Now(), rc) == TruncateOpen(old(Now()), path, size)
    {
      hide Host.Resize;
      var p := pending[path];
      var ok := disk.SetLength(p.spool, size);
      if !ok {
        return -EIO;
      }
      pending := pending[path := p.(size := size)];
      rc := 0;
    }

    method Truncate(path: string, size: nat) returns (rc: int)
      modifies this, mtp, tree, disk
      ensures Outcome(Now(), rc) == Mount.Truncate(old(Now()), path, size)
    {
      hide Mount.Resolve, Mount.AdoptForWrite, Mount.SendPending, TruncateOpen, Dropped;
      if path in pending {
        rc := CutOpen(path, size);
        return;
      }
      var found := Resolve(path);
      if found.None? {
        return -ENOENT;
      }
      var entry := tree.Get(found.value);
      if entry.None? || entry.value.isDir {
        return -EISDIR;
      }
      rc := AdoptForWrite(path, found.value, entry.value, size > 0);
      if rc != 0 || path !in pending {
        return;
      }
      rc := CutOpen(path, size);
      if rc != 0 || path !in pending {
        return;
      }
      var p := pending[path];
      pending := pending - {path};
      p, rc := SendPending(p);
      Drop(p);
    }

    // ----- read -----

    method ReadObject(h: Handle, want: nat, offset: nat) returns (r: Result<seq<Byte>, int>)
      modifies mtp
      ensures ReadOut(Now(), r) == Mount.ReadObject(old(Now()), h, want, offset)
    {
      hide Backend.ReadAt;
      var entry := tree.Get(h);
      if entry.None? {
        return Failure(-ENOENT);
      }
      if offset >= entry.value.size {
        return Success([]);
      }
      var due := Min(want, entry.value.size - offset);
      var bytes := mtp.ReadAt(h, offset, due, entry.value.size);
      r := if bytes.None? then Failure(-EIO) else Success(bytes.value);
    }

    method Read(path: string, want: nat, offset: nat, fi: Option<nat>) returns (r: Result<seq<Byte>, int>)
      modifies mtp, tree, disk
      ensures ReadOut(Now(), r) == Mount.Read(old(Now()), path, want, offset, fi)
    {
      hide Mount.Resolve, Mount.ReadObject, FhHandle, Host.ReadSpool;
      if path in pending {
        var p := pending[path];
        if offset >= p.size {
          return Success([]);
        }
        var bytes := disk.ReadAt(p.spool, offset, Min(want, p.size - offset));
        return if bytes.None? then Failure(-EIO) else Success(bytes.value);
      }
      var h := ROOT;
      if fi.Some? && FhHandle(fi.value) != 0 {
        h := FhHandle(fi.value);
      } else {
        var found := Resolve(path);
        if found.None? {
          return Failure(-ENOENT);
        }
        h := found.value;
      }
      r := ReadObject(h, want, offset);
    }

    // ----- folders -----

    method RemoveObject(path: string, wantDir: bool) returns (rc: int)
      modifies mtp, tree
      ensures Outcome(Now(), rc) == RemovePath(old(Now()), path, wantDir)
    {
      hide Mount.Resolve, Backend.DeleteObject;
      var found := Resolve(path);
      if found.None? {
        return -ENOENT;
      }
      if found.value == ROOT {
        return -EIO;
      }
      var entry := tree.Get(found.value);
      if entry.None? {
        return -ENOENT;
      }
      if entry.value.isDir != wantDir {
        return if wantDir then -ENOTDIR else -EISDIR;
      }
      var ok := mtp.DeleteObject(found.value);
      if !ok {
        return -EIO;
      }
      tree.ForgetListing(entry.value.parent);
      rc := 0;
    }

    method Mkdir(path: string) returns (rc: int)
      modifies mtp, tree
      ensures Outcome(Now(), rc) == Mount.Mkdir(old(Now()), path)
    {
      hide Mount.Resolve, Backend.MakeFolder, SplitParent;
      var (dir, name) := SplitParent(path);
      if name == "" {
        return -EIO;
      }
      var parent := Resolve(dir);
      if parent.None? {
        return -ENOENT;
      }
      var ok := mtp.MakeFolder(parent.value, name);
      if !ok {
        return -EIO;
      }
      tree.ForgetListing(parent.value);
      rc := 0;
    }

    /** The part of a listing callback that reads the folder. */
    method ReadFolder(path: string) returns (rc: int)
      modifies mtp, tree
      ensures Outcome(Now(), rc) == Mount.ReadFolder(old(Now()), path)
    {
      hide Mount.Resolve, Device.List, WithChildren;
      var found := Resolve(path);
      if found.None? {
        return -ENOENT;
      }
      if found.value !in tree.listed {
        var entries := mtp.List(found.value);
        if entries.None? {
          return -EIO;
        }
        tree.SetChildren(found.value, entries.value);
      }
      rc := 0;
    }

    // ----- rename -----

    /** The steps of a rename that change the device. */
    method CarryOut(plan: Plan) returns (rc: int)
      modifies mtp, tree, disk
      ensures Outcome(Now(), rc) == Mount.CarryOut(old(Now()), plan)
    {
      hide AsideName, Backend.RenameObject, Backend.MoveObject, Backend.DeleteObject;
      if plan.taken.Some? {
        var n := disk.TakeNumber();
        var aside := mtp.RenameObject(plan.taken.value, AsideName(plan.newName, n));
        if !aside {
          return -EIO;
        }
        tree.ForgetListing(plan.newParent);
      }
      if plan.newParent != plan.oldParent {
        if !mtp.canMove {
          return -ENOTSUP;
        }
        var moved := mtp.MoveObject(plan.h, plan.newParent);
        if !moved {
          return -EIO;
        }
      }
      var known := tree.Get(plan.h);
      var oldName := if known.Some? then known.value.name else "";
      if oldName != plan.newName {
        if !mtp.canRename {
          return -ENOTSUP;
        }
        var named := mtp.RenameObject(plan.h, plan.newName);
        if !named {
          if plan.taken.Some? {
            var back := mtp.RenameObject(plan.taken.value, plan.newName);
          }
          tree.ForgetListing(plan.newParent);
          return -EIO;
        }
      }
      if plan.taken.Some? {
        var cleared := mtp.DeleteObject(plan.taken.value);
      }
      tree.ForgetListing(plan.oldParent);
      tree.ForgetListing(plan.newParent);
      rc := 0;
    }

    method Rename(from: string, to: string) returns (rc: int)
      modifies mtp, tree, disk
      ensures Outcome(Now(), rc) == Mount.Rename(old(Now()), from, to)
    {
      hide Mount.Resolve, Mount.CarryOut, SplitParent;
      var h := Resolve(from);
      if h.None? {
        return -ENOENT;
      }
      if h.value == ROOT {
        return -EIO;
      }
      var oldDir := SplitParent(from).0;
      var (newDir, newName) := SplitParent(to);
      if newName == "" {
        return -EIO;
      }
      var oldParent := Resolve(oldDir);
      if oldParent.None? {
        return -ENOENT;
      }
      var newParent := Resolve(newDir);
      if newParent.None? {
        return -ENOENT;
      }
      var taken := Resolve(to);
      if taken == h {
        return 0;
      }
      if taken == Some(ROOT) {
        return -EIO;
      }
      rc := CarryOut(Plan(h.value, oldParent.value, newParent.value, newName, taken));
    }
  }
}
