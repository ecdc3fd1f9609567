/** The session a mount holds open, with the bytes it read in advance.
    `crates/mtpfs/src/backend.rs`, lines 324 to 361 and 715 to 1061. */
module Backend {
  import opened Bytes
  import opened Wrappers
  import opened PathTree
  import opened Device
  import Container

  const READ_AHEAD := 4 * 1024 * 1024

  datatype ReadCache = ReadCache(handle: Handle, start: nat, data: seq<Byte>)

  datatype MtpState = MtpState(
    dev: Dev, cache: Option<ReadCache>, packet: nat, wide: bool, canRename: bool, canMove: bool)

  /** A session after one operation, and whether the operation worked. */
  datatype Tried = Tried(m: MtpState, ok: bool)

  // ----- changes -----

  /** A change the device answered drops the cache; a change with no answer returns first. */
  function Changed(m: MtpState, d: Dev, v: Verdict): MtpState {
    m.(dev := d, cache := if v.Lost? then m.cache else None)
  }

  function RenameObject(m: MtpState, h: Handle, name: string): Tried {
    var did := Device.Rename(m.dev, h, name);
    Tried(Changed(m, did.dev, did.verdict), did.verdict.Done?)
  }

  function MoveObject(m: MtpState, h: Handle, parent: Handle): Tried {
    var did := Device.Move(m.dev, h, parent);
    Tried(Changed(m, did.dev, did.verdict), did.verdict.Done?)
  }

  function DeleteObject(m: MtpState, h: Handle): Tried {
    var did := Device.Delete(m.dev, h);
    Tried(Changed(m, did.dev, did.verdict), did.verdict.Done?)
  }

  function MakeFolder(m: MtpState, parent: Handle, name: string): Tried {
    var did := Device.Announce(m.dev, parent, name, 0, true);
    Tried(Changed(m, did.dev, did.verdict), did.verdict.Done?)
  }

  /** Sends `size` bytes of the reader `bytes` as a new object. */
  function SendObjectStream(m: MtpState, parent: Handle, name: string, bytes: seq<Byte>, size: nat): Tried {
    if size > Container.MAX_PAYLOAD_LEN then Tried(m, false)
    else
      var announced := Device.Announce(m.dev, parent, name, size, false);
      var m1 := Changed(m, announced.dev, announced.verdict);
      if !announced.verdict.Done? then Tried(m1, false)
      else
        var sent := Device.Send(m1.dev, announced.value, parent, name, bytes, size);
        Tried(Changed(m1, sent.dev, sent.verdict), sent.verdict.Done?)
  }

  // ----- reads -----

  /** Holds one byte back from a read that reaches the end on a whole packet. */
  function SplitFinalRead(offset: nat, want: nat, fileSize: nat, packet: nat): (nat, bool) {
    if offset + want >= fileSize && packet != 0 && want != 0 && want % packet == 0
    then (want - 1, true)
    else (want, false)
  }

  function CacheGet(c: ReadCache, h: Handle, offset: nat, want: nat): Option<seq<Byte>> {
    if c.handle != h || offset < c.start then None
    else
      var from := offset - c.start;
      if from >= |c.data| then None else Some(c.data[from..Min(from + want, |c.data|)])
  }

  function Hit(m: MtpState, h: Handle, offset: nat, want: nat): (r: Option<seq<Byte>>)
    ensures r.Some? && want > 0 ==> 0 < |r.value| <= want
  {
    if m.cache.None? then None else CacheGet(m.cache.value, h, offset, want)
  }

  datatype ReadResult = ReadResult(m: MtpState, bytes: Option<seq<Byte>>)

  /** The offset and the count pass through 32 bit parameters: two of them for the offset of
      the wide operation, and one for the other. */
  function PartialRead(m: MtpState, h: Handle, offset: nat, want: nat): ReadResult {
    var asked := if m.wide then offset % 0x1_0000_0000_0000_0000 else offset % 0x1_0000_0000;
    var did := Device.ReadPartial(m.dev, h, asked, want % 0x1_0000_0000);
    ReadResult(m.(dev := did.dev), if did.verdict.Done? then Some(did.value) else None)
  }

  function ReadFromDevice(m: MtpState, h: Handle, offset: nat, want: nat, fileSize: nat): ReadResult {
    var (first, short) := SplitFinalRead(offset, want, fileSize, m.packet);
    var r := PartialRead(m, h, offset, first);
    if r.bytes.None? then r
    else if short && |r.bytes.value| == first then
      var tail := PartialRead(r.m, h, offset + first, 1);
      ReadResult(tail.m, if tail.bytes.None? then None else Some(r.bytes.value + tail.bytes.value))
    else r
  }

  function Max(a: nat, b: nat): nat {
    if a < b then b else a
  }

  /** The loop of `read_at`: `out` is there, and `want` bytes are due in all. */
  function ReadLoop(m: MtpState, h: Handle, offset: nat, want: nat, fileSize: nat, out: seq<Byte>): ReadResult
    requires |out| <= want && offset + want <= fileSize
    decreases want - |out|
  {
    if |out| == want then ReadResult(m, Some(out))
    else
      var at := offset + |out|;
      var need := want - |out|;
      var hit := Hit(m, h, at, need);
      if hit.Some? then ReadLoop(m, h, offset, want, fileSize, out + hit.value)
      else
        var ask := Min(Max(need, READ_AHEAD), fileSize - at);
        var r := ReadFromDevice(m, h, at, ask, fileSize);
        if r.bytes.None? then r
        else if r.bytes.value == [] then ReadResult(r.m, Some(out))
        else
          var data := r.bytes.value;
          ReadLoop(r.m.(cache := Some(ReadCache(h, at, data))), h, offset, want, fileSize,
                   out + data[..Min(need, |data|)])
  }

  function ReadAt(m: MtpState, h: Handle, offset: nat, want: nat, fileSize: nat): ReadResult {
    if want == 0 || offset >= fileSize then ReadResult(m, Some([]))
    else ReadLoop(m, h, offset, Min(want, fileSize - offset), fileSize, [])
  }
}
