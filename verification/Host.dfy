/** The spool files on the disk of the host, and a script that says how each call on them
    goes. `crates/mtpfs/src/main.rs`, lines 76 to 149 and 1069 to 1116. */
module Host {
  import opened Bytes
  import opened Wrappers

  const EIO := 5

  type Errno = x: int | x > 0 witness 5

  /** How one call goes: whether it works, its error number, the most bytes it moves, and
      the free space a query reports. */
  datatype HostReply = HostReply(ok: bool, errno: Errno, moved: nat, free: Option<nat>)

  /** `count` is `SPOOL_COUNT`, which numbers both spool files and aside names. */
  datatype HostState = HostState(files: map<nat, seq<Byte>>, script: seq<HostReply>, count: nat)

  function Now(h: HostState): HostReply {
    if h.script == [] then HostReply(false, EIO, 0, None) else h.script[0]
  }

  function Used(h: HostState): HostState {
    h.(script := if h.script == [] then [] else h.script[1..])
  }

  function Zeros(n: nat): (z: seq<Byte>)
    ensures |z| == n
  {
    seq(n, _ => 0)
  }

  /** A file after a write: a write past the end fills the gap with zeros, and a write of no
      bytes changes nothing. */
  function Splice(content: seq<Byte>, offset: nat, bytes: seq<Byte>): seq<Byte> {
    if bytes == [] then content
    else
      var padded := if offset <= |content| then content else content + Zeros(offset - |content|);
      padded[..offset] + bytes
      + (if offset + |bytes| < |padded| then padded[offset + |bytes|..] else [])
  }

  function Resize(content: seq<Byte>, n: nat): seq<Byte> {
    if n <= |content| then content[..n] else content + Zeros(n - |content|)
  }

  function Contents(h: HostState, id: nat): seq<Byte> {
    if id in h.files then h.files[id] else []
  }

  function Remove(h: HostState, id: nat): HostState {
    h.(files := h.files - {id})
  }

  /** Takes the next number of the program. */
  function Numbered(h: HostState): HostState {
    h.(count := h.count + 1)
  }

  datatype Made = Made(h: HostState, id: Option<nat>)

  function MakeSpool(h: HostState): Made {
    var h' := Used(Numbered(h));
    if Now(h).ok then Made(h'.(files := h'.files[h.count := []]), Some(h.count)) else Made(h', None)
  }

  datatype Tried = Tried(h: HostState, ok: bool)

  function Append(h: HostState, id: nat, bytes: seq<Byte>): Tried {
    var h' := Used(h);
    if Now(h).ok then Tried(h'.(files := h'.files[id := Contents(h, id) + bytes]), true) else Tried(h', false)
  }

  function SetLen(h: HostState, id: nat, n: nat): Tried {
    var h' := Used(h);
    if Now(h).ok then Tried(h'.(files := h'.files[id := Resize(Contents(h, id), n)]), true) else Tried(h', false)
  }

  function SeekStart(h: HostState): Tried {
    Tried(Used(h), Now(h).ok)
  }

  datatype WriteEnd = Whole | Short | Fault(errno: Errno)

  datatype Written = Written(h: HostState, end: WriteEnd)

  /** The loop of a write: each call moves as many bytes as the disk takes. */
  function WriteLoop(h: HostState, id: nat, offset: nat, bytes: seq<Byte>): Written
    decreases |bytes|
  {
    if bytes == [] then Written(h, Whole)
    else
      var reply := Now(h);
      var h' := Used(h);
      if !reply.ok then Written(h', Fault(reply.errno))
      else if reply.moved == 0 then Written(h', Short)
      else
        var n := Min(reply.moved, |bytes|);
        WriteLoop(h'.(files := h'.files[id := Splice(Contents(h, id), offset, bytes[..n])]),
                  id, offset + n, bytes[n..])
  }

  datatype Read = Read(h: HostState, bytes: Option<seq<Byte>>)

  function ReadSpool(h: HostState, id: nat, offset: nat, want: nat): Read {
    var content := Contents(h, id);
    var left := if offset <= |content| then |content| - offset else 0;
    var n := Min(Min(want, left), Now(h).moved);
    Read(Used(h), if !Now(h).ok then None else if n == 0 then Some([]) else Some(content[offset..offset + n]))
  }

  // ----- the disk as the mount uses it -----

  class Disk {
    var files: map<nat, seq<Byte>>
    var script: seq<HostReply>
    var count: nat

    function State(): HostState
      reads this
    {
      HostState(files, script, count)
    }

    constructor (script: seq<HostReply>)
      ensures State() == HostState(map[], script, 0)
    {
      this.script := script;
      files := map[];
      count := 0;
    }

    method Reply() returns (r: HostReply)
      modifies this`script
      ensures r == Now(old(State())) && State() == Used(old(State()))
    {
      r := Now(State());
      script := if script == [] then [] else script[1..];
    }

    /** The next number of the program, for a spool file or an aside name. */
    method TakeNumber() returns (n: nat)
      modifies this`count
      ensures n == old(count) && State() == Numbered(old(State()))
    {
      n := count;
      count := count + 1;
    }

    method FreeBytes() returns (free: Option<nat>)
      modifies this
      ensures free == Now(old(State())).free && State() == Used(old(State()))
    {
      var r := Reply();
      free := r.free;
    }

    method CreateSpool() returns (id: Option<nat>)
      modifies this
      ensures Made(State(), id) == MakeSpool(old(State()))
    {
      var n := TakeNumber();
      var r := Reply();
      if !r.ok {
        return None;
      }
      files := files[n := []];
      id := Some(n);
    }

    method WriteAll(id: nat, bytes: seq<Byte>) returns (ok: bool)
      modifies this
      ensures Tried(State(), ok) == Append(old(State()), id, bytes)
    {
      var r := Reply();
      if r.ok {
        files := files[id := Contents(State(), id) + bytes];
      }
      ok := r.ok;
    }

    method SetLength(id: nat, n: nat) returns (ok: bool)
      modifies this
      ensures Tried(State(), ok) == SetLen(old(State()), id, n)
    {
      var r := Reply();
      if r.ok {
        files := files[id := Resize(Contents(State(), id), n)];
      }
      ok := r.ok;
    }

    method Rewind() returns (ok: bool)
      modifies this
      ensures Tried(State(), ok) == SeekStart(old(State()))
    {
      var r := Reply();
      ok := r.ok;
    }

    /** One call on the disk: how many of the bytes it took, or its fault. */
    method WriteAt(id: nat, offset: nat, bytes: seq<Byte>) returns (r: Result<nat, Errno>)
      requires bytes != []
      modifies this
      ensures r == (if Now(old(State())).ok then Success(Min(Now(old(State())).moved, |bytes|))
                    else Failure(Now(old(State())).errno))
      ensures State() == (if r.Failure? || r.value == 0 then Used(old(State()))
                          else Used(old(State())).(files := old(files)[id :=
                            Splice(Contents(old(State()), id), offset, bytes[..r.value])]))
    {
      var reply := Reply();
      if !reply.ok {
        return Failure(reply.errno);
      }
      var n := Min(reply.moved, |bytes|);
      if n > 0 {
        files := files[id := Splice(Contents(State(), id), offset, bytes[..n])];
      }
      r := Success(n);
    }

    method ReadAt(id: nat, offset: nat, want: nat) returns (r: Option<seq<Byte>>)
      modifies this
      ensures Read(State(), r) == ReadSpool(old(State()), id, offset, want)
    {
      var content := Contents(State(), id);
      var reply := Reply();
      if !reply.ok {
        return None;
      }
      var left := if offset <= |content| then |content| - offset else 0;
      var n := Min(Min(want, left), reply.moved);
      r := Some(if n == 0 then [] else content[offset..offset + n]);
    }

    method RemoveFile(id: nat)
      modifies this`files
      ensures State() == Remove(old(State()), id)
    {
      files := files - {id};
    }
  }

  // ----- what a write in pieces makes of a file -----

  lemma SpliceAt(content: seq<Byte>, offset: nat, bytes: seq<Byte>, i: nat)
    requires i < |Splice(content, offset, bytes)|
    ensures Splice(content, offset, bytes)[i] ==
      if offset <= i < offset + |bytes| then bytes[i - offset] else if i < |content| then content[i] else 0
  {
  }

  lemma SpliceLength(content: seq<Byte>, offset: nat, bytes: seq<Byte>)
    ensures |Splice(content, offset, bytes)| ==
      if bytes == [] || offset + |bytes| <= |content| then |content| else offset + |bytes|
  {
  }

  /** Two writes end to end are one write. */
  lemma SpliceInTwo(content: seq<Byte>, offset: nat, a: seq<Byte>, b: seq<Byte>)
    requires a != []
    ensures Splice(Splice(content, offset, a), offset + |a|, b) == Splice(content, offset, a + b)
  {
    var one := Splice(content, offset, a);
    var two := Splice(one, offset + |a|, b);
    var whole := Splice(content, offset, a + b);
    SpliceLength(content, offset, a);
    SpliceLength(one, offset + |a|, b);
    SpliceLength(content, offset, a + b);
    hide Splice;
    forall i | 0 <= i < |two|
      ensures two[i] == whole[i]
    {
      SpliceAt(one, offset + |a|, b, i);
      if i < |one| {
        SpliceAt(content, offset, a, i);
      }
      SpliceAt(content, offset, a + b, i);
    }
  }

  /** A write that ends whole splices all its bytes, however the disk cut it. */
  lemma {:induction false} WriteLoopSplices(h: HostState, id: nat, offset: nat, bytes: seq<Byte>)
    requires id in h.files
    ensures var r := WriteLoop(h, id, offset, bytes);
      && r.h.count == h.count && id in r.h.files
      && (forall k :: k != id ==> (k in r.h.files <==> k in h.files) && (k in h.files ==> r.h.files[k] == h.files[k]))
      && (r.end.Whole? ==> r.h.files[id] == Splice(h.files[id], offset, bytes))
    decreases |bytes|
  {
    hide Splice;
    if bytes != [] && Now(h).ok && Now(h).moved > 0 {
      var n := Min(Now(h).moved, |bytes|);
      var h1 := Used(h).(files := h.files[id := Splice(h.files[id], offset, bytes[..n])]);
      WriteLoopSplices(h1, id, offset + n, bytes[n..]);
      SpliceInTwo(h.files[id], offset, bytes[..n], bytes[n..]);
      assert bytes[..n] + bytes[n..] == bytes;
    } else {
      NoBytesNoChange(h.files[id], offset);
    }
  }

  lemma NoBytesNoChange(content: seq<Byte>, offset: nat)
    ensures Splice(content, offset, []) == content
  {
  }
}
