/** The session as the host updates it, method by method, against the functions of `Backend`.
    `crates/mtpfs/src/backend.rs`, lines 724 to 1061. */
module MtpSession {
  import opened Bytes
  import opened Wrappers
  import opened PathTree
  import opened Device
  import opened Backend
  import Container

  class Mtp {
    var dev: Dev
    var cache: Option<ReadCache>
    const packet: nat
    const wide: bool
    const canRename: bool
    const canMove: bool

    function State(): MtpState
      reads this
    {
      MtpState(dev, cache, packet, wide, canRename, canMove)
    }

    constructor (dev: Dev, packet: nat, wide: bool, canRename: bool, canMove: bool)
      ensures State() == MtpState(dev, None, packet, wide, canRename, canMove)
    {
      this.dev := dev;
      this.packet := packet;
      this.wide := wide;
      this.canRename := canRename;
      this.canMove := canMove;
      cache := None;
    }

    method List(folder: Handle) returns (r: Option<seq<Entry>>)
      modifies this
      ensures var did := Device.List(old(dev), folder);
        && State() == old(State()).(dev := did.dev)
        && r == (if did.verdict.Done? then Some(did.value) else None)
    {
      var did := Device.List(dev, folder);
      dev := did.dev;
      r := if did.verdict.Done? then Some(did.value) else None;
    }

    /** The free space, or nothing when the device gives no answer. */
    method StorageInfo() returns (free: Option<U64>)
      modifies this
      ensures var did := Device.Storage(old(dev));
        && State() == old(State()).(dev := did.dev)
        && free == (if did.verdict.Done? then Some(did.value) else None)
    {
      var did := Device.Storage(dev);
      dev := did.dev;
      free := if did.verdict.Done? then Some(did.value) else None;
    }

    method RenameObject(h: Handle, name: string) returns (ok: bool)
      modifies this
      ensures Tried(State(), ok) == Backend.RenameObject(old(State()), h, name)
    {
      var did := Device.Rename(dev, h, name);
      dev := did.dev;
      if did.verdict.Lost? {
        return false;
      }
      cache := None;
      ok := did.verdict.Done?;
    }

    method MoveObject(h: Handle, parent: Handle) returns (ok: bool)
      modifies this
      ensures Tried(State(), ok) == Backend.MoveObject(old(State()), h, parent)
    {
      var did := Device.Move(dev, h, parent);
      dev := did.dev;
      if did.verdict.Lost? {
        return false;
      }
      cache := None;
      ok := did.verdict.Done?;
    }

    method DeleteObject(h: Handle) returns (ok: bool)
      modifies this
      ensures Tried(State(), ok) == Backend.DeleteObject(old(State()), h)
    {
      var did := Device.Delete(dev, h);
      dev := did.dev;
      if did.verdict.Lost? {
        return false;
      }
      cache := None;
      ok := did.verdict.Done?;
    }

    method MakeFolder(parent: Handle, name: string) returns (ok: bool)
      modifies this
      ensures Tried(State(), ok) == Backend.MakeFolder(old(State()), parent, name)
    {
      var did := Device.Announce(dev, parent, name, 0, true);
      dev := did.dev;
      if did.verdict.Lost? {
        return false;
      }
      cache := None;
      ok := did.verdict.Done?;
    }

    method SendObjectStream(parent: Handle, name: string, bytes: seq<Byte>, size: nat) returns (ok: bool)
      modifies this
      ensures Tried(State(), ok) == Backend.SendObjectStream(old(State()), parent, name, bytes, size)
    {
      if size > Container.MAX_PAYLOAD_LEN {
        return false;
      }
      var announced := Device.Announce(dev, parent, name, size, false);
      dev := announced.dev;
      if announced.verdict.Lost? {
        return false;
      }
      cache := None;
      if !announced.verdict.Done? {
        return false;
      }
      var sent := Device.Send(dev, announced.value, parent, name, bytes, size);
      dev := sent.dev;
      if sent.verdict.Lost? {
        return false;
      }
      ok := sent.verdict.Done?;
    }

    method AskPartial(h: Handle, offset: nat, want: nat) returns (r: Option<seq<Byte>>)
      modifies this`dev
      ensures ReadResult(State(), r) == Backend.PartialRead(old(State()), h, offset, want)
    {
      var asked := if wide then offset % 0x1_0000_0000_0000_0000 else offset % 0x1_0000_0000;
      var did := Device.ReadPartial(dev, h, asked, want % 0x1_0000_0000);
      dev := did.dev;
      r := if did.verdict.Done? then Some(did.value) else None;
    }

    method ReadFromDevice(h: Handle, offset: nat, want: nat, fileSize: nat) returns (r: Option<seq<Byte>>)
      modifies this`dev
      ensures ReadResult(State(), r) == Backend.ReadFromDevice(old(State()), h, offset, want, fileSize)
    {
      hide Backend.PartialRead, SplitFinalRead;
      var (first, short) := SplitFinalRead(offset, want, fileSize, packet);
      r := AskPartial(h, offset, first);
      if r.None? {
        return;
      }
      if short && |r.value| == first {
        var data := r.value;
        var tail := AskPartial(h, offset + first, 1);
        if tail.None? {
          return None;
        }
        r := Some(data + tail.value);
      }
    }

    method ReadAt(h: Handle, offset: nat, want: nat, fileSize: nat) returns (r: Option<seq<Byte>>)
      modifies this
      ensures ReadResult(State(), r) == Backend.ReadAt(old(State()), h, offset, want, fileSize)
    {
      hide Backend.ReadFromDevice, Backend.Hit, Backend.CacheGet;
      if want == 0 || offset >= fileSize {
        return Some([]);
      }
      var due := Min(want, fileSize - offset);
      var out: seq<Byte> := [];
      while |out| < due
        invariant |out| <= due
        invariant ReadLoop(State(), h, offset, due, fileSize, out)
               == ReadLoop(old(State()), h, offset, due, fileSize, [])
        decreases due - |out|
      {
        var at := offset + |out|;
        var need := due - |out|;
        var hit := Hit(State(), h, at, need);
        if hit.Some? {
          out := out + hit.value;
          continue;
        }
        var ask := Min(Max(need, READ_AHEAD), fileSize - at);
        var data := ReadFromDevice(h, at, ask, fileSize);
        if data.None? {
          return None;
        }
        if data.value == [] {
          break;
        }
        out := out + data.value[..Min(need, |data.value|)];
        cache := Some(ReadCache(h, at, data.value));
      }
      r := Some(out);
    }
  }
}
