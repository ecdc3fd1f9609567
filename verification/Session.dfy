/** One MTP session over a scripted transport.
    `crates/mtp-session/src/lib.rs`, lines 482 to 840, 987 to 1019 and 1030 to 1095. */
module Session {
  import opened Bytes
  import opened Wrappers
  import opened Container
  import opened Framing

  /** A transport that records each write and answers each read from a script. A write
      faults when `failAfter` writes are already out. */
  class Transport {
    const failAfter: Option<nat>
    var writes: seq<seq<Byte>>
    var script: seq<Answer>

    constructor (script: seq<Answer>, failAfter: Option<nat>)
      ensures this.script == script && this.failAfter == failAfter && writes == []
    {
      this.script := script;
      this.failAfter := failAfter;
      writes := [];
    }

    predicate Fails(count: nat)
    {
      failAfter.Some? && count >= failAfter.value
    }

    method Write(data: seq<Byte>) returns (r: Result<nat, SessionError>)
      modifies this`writes
      ensures r.Success? <==> !Fails(|old(writes)|)
      ensures writes == if r.Success? then old(writes) + [data] else old(writes)
      ensures r.Failure? ==> r.error == Usb
    {
      if Fails(|writes|) {
        return Failure(Usb);
      }
      writes := writes + [data];
      r := Success(|data|);
    }

    method Read(size: nat) returns (r: Result<seq<Byte>, SessionError>)
      modifies this`script
      ensures match ReadOnce(old(script), size)
              case Success(t) => r == Success(t.bytes) && script == t.rest
              case Failure(e) => r == Failure(e)
    {
      if script == [] {
        return Success([]);
      }
      var answer := script[0];
      script := script[1..];
      match answer {
        case Transfer(b) => r := Success(if |b| <= size then b else b[..size]);
        case Empty => r := Success([]);
        case Fail => r := Failure(Usb);
      }
    }
  }

  /** What a reader does for one call: at most `n` bytes, an interruption, or a fault. */
  datatype Step = Give(n: nat) | Interrupted | Broken

  datatype Given = Bytes(b: seq<Byte>) | Retry | Fault

  /** A reader over `data`, free to cut it as it likes. A reader with no script left gives
      all it is asked for. */
  class Source {
    const data: seq<Byte>
    var pos: nat
    var steps: seq<Step>

    ghost predicate Valid()
      reads this
    {
      pos <= |data|
    }

    /** No fault is ahead, and no read gives nothing before the end. */
    ghost predicate Honest()
      reads this
    {
      forall s <- steps :: !s.Broken? && (s.Give? ==> s.n > 0)
    }

    constructor (data: seq<Byte>, steps: seq<Step>)
      ensures Valid() && this.data == data && this.steps == steps && pos == 0
    {
      this.data := data;
      this.steps := steps;
      pos := 0;
    }

    method Read(len: nat) returns (r: Given)
      requires Valid() && len > 0
      modifies this
      ensures Valid()
      ensures r.Bytes? ==> pos == old(pos) + |r.b| && |r.b| <= len && r.b == data[old(pos)..pos]
      ensures !r.Bytes? ==> pos == old(pos) && |steps| < |old(steps)|
      ensures old(Honest()) ==> Honest() && !r.Fault?
      ensures old(Honest()) && r.Bytes? && old(pos) < |data| ==> |r.b| > 0
    {
      var most := len;
      if steps != [] {
        var s := steps[0];
        assert s in steps;
        steps := steps[1..];
        match s {
          case Interrupted => return Retry;
          case Broken => return Fault;
          case Give(n) => most := if n < len then n else len;
        }
      }
      var n := if |data| - pos < most then |data| - pos else most;
      r := Bytes(data[pos..pos + n]);
      pos := pos + n;
    }

    /** `read_exact_or_short`: fills a buffer of `len`, or reports how far it came. */
    method ReadExact(len: nat) returns (r: Result<seq<Byte>, SessionError>)
      requires Valid()
      modifies this
      ensures Valid()
      ensures r.Success? ==> pos == old(pos) + len && r.value == data[old(pos)..pos]
      ensures r.Failure? ==> r.error.ShortRead? && r.error.want == len && r.error.read < len
      ensures old(Honest()) ==> Honest()
      ensures old(Honest()) && old(pos) + len <= |data| ==> r.Success?
    {
      var buf: seq<Byte> := [];
      while |buf| < len
        invariant Valid() && |buf| <= len
        invariant pos == old(pos) + |buf| && buf == data[old(pos)..pos]
        invariant old(Honest()) ==> Honest()
        decreases len - |buf|, |steps|
      {
        var given := Read(len - |buf|);
        match given {
          case Bytes(b) =>
            if b == [] {
              return Failure(ShortRead(len, |buf|));
            }
            buf := buf + b;
          case Retry =>
          case Fault => return Failure(ShortRead(len, |buf|));
        }
      }
      r := Success(buf);
    }
  }

  class Session {
    const device: Transport
    const config: Config
    var transaction: U32

    /** A session keeps only a sound configuration. */
    constructor (device: Transport, config: Config)
      ensures this.device == device && this.config == Normalised(config) && Sound(this.config) && transaction == 0
    {
      NormalisedIsSound(config);
      this.device := device;
      this.config := Normalised(config);
      transaction := 0;
    }

    method NextTransaction() returns (tid: U32)
      modifies this
      ensures tid == old(transaction)
      ensures transaction == (old(transaction) + 1) % 0x1_0000_0000
    {
      tid := transaction;
      transaction := if transaction == 0xffff_ffff then 0 else transaction + 1;
    }

    /** `operation`: a command, and then the answer. */
    method Operation(code: U16, params: seq<U32>) returns (r: Result<Reply, SessionError>)
      requires config.readBuffer > 0
      modifies this, device
      ensures !device.Fails(|old(device.writes)|) ==>
                && device.writes == old(device.writes) + [CommandBytes(code, old(transaction), params)]
                && r == ReadAnswer(old(device.script), config.readBuffer)
      ensures device.Fails(|old(device.writes)|) ==> r == Failure(Usb) && device.writes == old(device.writes)
    {
      var tid := NextTransaction();
      var command := BuildCommand(code, tid, params);
      var _ :- device.Write(command);
      r := Answer();
    }

    /** Everything a data phase writes, from the command on. */
    ghost function Plan(code: U16, tid: U32, params: seq<U32>, payload: seq<Byte>): seq<seq<Byte>>
      requires config.writeChunk > 0 && |payload| <= MAX_PAYLOAD_LEN
    {
      [CommandBytes(code, tid, params)]
      + DataPhase(HeaderBytes(Header(HEADER_LEN + |payload|, Data, code, tid)) + payload,
                  config.writeChunk, config.packet)
    }

    /** What a data phase wrote when it broke off: the header and the first `n` bytes of the
        payload, in whole chunks unless that is all of it. */
    ghost predicate BrokeAt(writes: seq<seq<Byte>>, before: seq<seq<Byte>>, header: seq<Byte>,
                            data: seq<Byte>, start: nat, size: nat, n: nat)
      requires config.writeChunk > 0
    {
      && n <= size && start + n <= |data|
      && writes == before + Pieces(header + data[start..start + n], config.writeChunk)
      && (n < size ==> exists k: nat :: |header| + n == Chunks(k, config.writeChunk))
    }

    /** Nothing of a data phase, or such a part of it. */
    ghost predicate BrokeOff(writes: seq<seq<Byte>>, before: seq<seq<Byte>>, header: seq<Byte>,
                             data: seq<Byte>, start: nat, size: nat)
      requires config.writeChunk > 0
    {
      writes == before || exists n: nat :: BrokeAt(writes, before, header, data, start, size, n)
    }

    /** `operation_sending`. When it succeeds, the device got exactly the planned writes; and
        when the reader is honest, holds `size` bytes, and no write faults, nothing but the
        device's own answer decides the result, so the round bound never cuts a send. */
    method OperationSending(code: U16, params: seq<U32>, source: Source, size: nat)
      returns (r: Result<Reply, SessionError>)
      requires Sound(config) && source.Valid()
      modifies this, device, source
      ensures size > MAX_PAYLOAD_LEN ==>
                r == Failure(Build(size)) && device.writes == old(device.writes)
      ensures size <= MAX_PAYLOAD_LEN && r.Success? ==>
                && old(source.pos) + size <= |source.data|
                && device.writes == old(device.writes)
                   + Plan(code, old(transaction), params, source.data[old(source.pos)..old(source.pos) + size])
                && r == ReadAnswer(old(device.script), config.readBuffer)
      ensures size <= MAX_PAYLOAD_LEN && old(source.Honest()) && device.failAfter.None?
              && old(source.pos) + size <= |source.data| ==>
                && device.writes == old(device.writes)
                   + Plan(code, old(transaction), params, source.data[old(source.pos)..old(source.pos) + size])
                && r == ReadAnswer(old(device.script), config.readBuffer)
      ensures size <= MAX_PAYLOAD_LEN && r.Failure? ==>
                || device.writes == old(device.writes)
                || BrokeOff(device.writes, old(device.writes) + [CommandBytes(code, old(transaction), params)],
                            HeaderBytes(Header(HEADER_LEN + size, Data, code, old(transaction))),
                            source.data, old(source.pos), size)
                || (old(source.pos) + size <= |source.data|
                    && device.writes == old(device.writes)
                       + Plan(code, old(transaction), params, source.data[old(source.pos)..old(source.pos) + size]))
    {
      hide HeaderBytes, Pieces, CommandBytes, ReadAnswer, BrokeAt;
      var length := ContainerLength(size);
      if length.Failure? {
        return Failure(Build(size));
      }
      var total := length.value;
      var tid := NextTransaction();
      var command := BuildCommand(code, tid, params);
      var _ :- device.Write(command);
      ghost var header := HeaderBytes(Header(HEADER_LEN + size, Data, code, tid));
      var _ :- SendData(code, tid, source, size);
      ghost var payload := source.data[old(source.pos)..source.pos];
      WholeBreaksOff(device.writes, old(device.writes) + [command], header, source.data, old(source.pos), size);
      assert device.writes == old(device.writes) + ([command] + Pieces(header + payload, config.writeChunk));
      if NeedsZeroPacket(total, config.packet) {
        var _ :- device.Write([]);
      }
      r := Answer();
    }

    /** The whole payload is one place to break off. */
    lemma WholeBreaksOff(writes: seq<seq<Byte>>, before: seq<seq<Byte>>, header: seq<Byte>,
                         data: seq<Byte>, start: nat, size: nat)
      requires config.writeChunk > 0 && start + size <= |data|
      requires writes == before + Pieces(header + data[start..start + size], config.writeChunk)
      ensures BrokeOff(writes, before, header, data, start, size)
    {
      assert BrokeAt(writes, before, header, data, start, size, size);
    }

    lemma ChunksBreakOff(writes: seq<seq<Byte>>, before: seq<seq<Byte>>, header: seq<Byte>,
                         data: seq<Byte>, start: nat, size: nat, n: nat, k: nat)
      requires config.writeChunk > 0 && n <= size && start + n <= |data|
      requires writes == before + Pieces(header + data[start..start + n], config.writeChunk)
      requires |header| + n == Chunks(k, config.writeChunk)
      ensures BrokeOff(writes, before, header, data, start, size)
    {
      assert BrokeAt(writes, before, header, data, start, size, n);
    }

    /** The chunks of the data phase, without the write of no bytes. */
    method SendData(code: U16, tid: U32, source: Source, size: nat) returns (r: Result<(), SessionError>)
      requires Sound(config) && source.Valid() && size <= MAX_PAYLOAD_LEN
      modifies device`writes, source
      ensures source.Valid()
      ensures r.Success? ==>
                && source.pos == old(source.pos) + size <= |source.data|
                && device.writes == old(device.writes)
                   + Pieces(HeaderBytes(Header(HEADER_LEN + size, Data, code, tid))
                            + source.data[old(source.pos)..source.pos], config.writeChunk)
      ensures old(source.Honest()) && device.failAfter.None? && old(source.pos) + size <= |source.data| ==> r.Success?
      ensures r.Failure? ==>
                BrokeOff(device.writes, old(device.writes), HeaderBytes(Header(HEADER_LEN + size, Data, code, tid)),
                         source.data, old(source.pos), size)
    {
      hide HeaderBytes, Pieces, Chunks, BrokeAt;
      var header := BuildDataHeader(code, tid, size);
      if header.Failure? {
        return Failure(Build(size));
      }
      var first :- SendFirst(header.value, source, size);
      var sent :- SendRest(header.value, source, size, first, old(source.pos), old(device.writes));
      if sent < size {
        // The source reports a short read here. No honest send reaches the line.
        RoundsReach(size, config.writeChunk);
        assert false;
      }
      r := Success(());
    }

    /** The first write of a data phase: the header, and as much payload as fills the chunk. */
    method SendFirst(header: seq<Byte>, source: Source, size: nat) returns (r: Result<nat, SessionError>)
      requires Sound(config) && source.Valid() && |header| == HEADER_LEN
      modifies device`writes, source
      ensures source.Valid()
      ensures r.Success? ==>
                && r.value <= size && source.pos == old(source.pos) + r.value
                && (r.value < size ==> HEADER_LEN + r.value == config.writeChunk)
                && device.writes == old(device.writes)
                   + Pieces(header + source.data[old(source.pos)..source.pos], config.writeChunk)
      ensures old(source.Honest()) ==> source.Honest()
      ensures old(source.Honest()) && device.failAfter.None? && old(source.pos) + size <= |source.data| ==> r.Success?
      ensures r.Failure? ==> device.writes == old(device.writes)
    {
      var room := config.writeChunk - HEADER_LEN;
      var want := if room < size then room else size;
      var first :- source.ReadExact(want);
      var _ :- device.Write(header + first);
      r := Success(want);
    }

    /** The loop of `operation_sending` after its first write, for `size / chunk + 4` rounds. */
    method SendRest(header: seq<Byte>, source: Source, size: nat, first: nat,
                    ghost start: nat, ghost before: seq<seq<Byte>>)
      returns (r: Result<nat, SessionError>)
      requires Sound(config) && source.Valid() && |header| == HEADER_LEN && first <= size
      requires start + first == source.pos
      requires first < size ==> HEADER_LEN + first == config.writeChunk
      requires device.writes == before + Pieces(header + source.data[start..source.pos], config.writeChunk)
      modifies device`writes, source
      ensures source.Valid()
      ensures r.Success? ==>
                && r.value <= size && source.pos == start + r.value
                && (r.value < size ==> HEADER_LEN + r.value == Chunks(size / config.writeChunk + 5, config.writeChunk))
                && device.writes == before + Pieces(header + source.data[start..source.pos], config.writeChunk)
      ensures old(source.Honest()) && device.failAfter.None? && start + size <= |source.data| ==> r.Success?
      ensures r.Failure? ==> BrokeOff(device.writes, before, header, source.data, start, size)
    {
      hide Chunks, Pieces, BrokeOff;
      var chunk := config.writeChunk;
      var sent: nat := first;
      var rounds := size / chunk + 4;
      ChunksStep(0, chunk);
      for i := 0 to rounds
        invariant source.Valid() && sent <= size && source.pos == start + sent
        invariant old(source.Honest()) ==> source.Honest()
        invariant sent < size ==> HEADER_LEN + sent == Chunks(i + 1, chunk)
        invariant device.writes == before + Pieces(header + source.data[start..start + sent], chunk)
      {
        if sent >= size {
          break;
        }
        ChunksStep(i + 1, chunk);
        ChunksBreakOff(device.writes, before, header, source.data, start, size, sent, i + 1);
        var want := if chunk < size - sent then chunk else size - sent;
        var piece :- source.ReadExact(want);
        var _ :- device.Write(piece);
        PiecesGrowBySlice(header, source.data, start, sent, want, chunk, i + 1);
        sent := sent + want;
      }
      r := Success(sent);
    }

    /** `read_answer`: an optional data phase, and then the response. */
    method Answer() returns (r: Result<Reply, SessionError>)
      requires config.readBuffer > 0
      modifies device`script
      ensures r == ReadAnswer(old(device.script), config.readBuffer)
    {
      var buf :- device.Read(config.readBuffer);
      var first := ParseHeader(buf);
      if first.Failure? {
        return Failure(Parse(first.error));
      }
      match first.value.kind {
        case Data =>
          r := AnswerWithData(buf, first.value.length);
        case Response =>
          match Container.Parse(buf) {
            case Failure(e) => r := Failure(Parse(e));
            case Success(c) => r := Success(Reply(c.header.code, Parameters(c.payload), [], device.script));
          }
        case Command => r := Failure(Unexpected(Response, Command));
        case Event => r := Failure(Unexpected(Response, Event));
      }
    }

    method AnswerWithData(first: seq<Byte>, declared: nat) returns (r: Result<Reply, SessionError>)
      requires config.readBuffer > 0 && |first| >= HEADER_LEN
      modifies device`script
      ensures r == ReadData(first, declared, old(device.script), config.readBuffer)
    {
      var size := config.readBuffer;
      if declared > MAX_DATA_BYTES {
        return Failure(TooLarge(declared, MAX_DATA_BYTES));
      }
      var out := first[HEADER_LEN..];
      var have := |first|;
      var rounds := Rounds(declared, size);
      var complete := have >= declared;
      var i := 0;
      ghost var goal := Gather(device.script, size, have, declared, rounds);
      assert goal.Success? ==> out + goal.value.bytes == first[HEADER_LEN..] + goal.value.bytes;
      while i < rounds && !complete
        invariant i <= rounds && complete == (have >= declared)
        invariant have == |out| + HEADER_LEN
        invariant match Gather(device.script, size, have, declared, rounds - i)
                  case Success(t) => goal.Success? && goal.value.rest == t.rest
                                     && out + t.bytes == first[HEADER_LEN..] + goal.value.bytes
                  case Failure(e) => goal == Failure(e)
        decreases rounds - i
      {
        i := i + 1;
        var more :- device.Read(size);
        if more == [] {
          break;
        }
        ghost var later := Gather(device.script, size, have + |more|, declared, rounds - i);
        assert later.Success? ==> (out + more) + later.value.bytes == out + (more + later.value.bytes);
        out := out + more;
        have := have + |more|;
        complete := have >= declared;
      }
      assert goal.Success? && device.script == goal.value.rest && out == first[HEADER_LEN..] + goal.value.bytes;
      if !complete {
        return Failure(Incomplete(declared, have));
      }
      var last :- device.Read(size);
      match Container.Parse(last) {
        case Failure(e) => r := Failure(Parse(e));
        case Success(c) =>
          if c.header.kind != Response {
            r := Failure(Unexpected(Response, c.header.kind));
          } else {
            r := Success(Reply(c.header.code, Parameters(c.payload), out, device.script));
          }
      }
    }
  }

  function Chunks(k: nat, chunk: nat): nat {
    k * chunk
  }

  lemma ChunksStep(k: nat, chunk: nat)
    ensures Chunks(k + 1, chunk) == Chunks(k, chunk) + chunk
    ensures Chunks(0, chunk) == 0
  {
  }

  /** A whole number of full chunks, and one more piece after them. */
  lemma {:induction false} PiecesGrow(all: seq<Byte>, piece: seq<Byte>, chunk: nat, k: nat)
    requires chunk > 0 && |all| == Chunks(k, chunk) && k > 0
    requires 0 < |piece| <= chunk
    ensures Pieces(all + piece, chunk) == Pieces(all, chunk) + [piece]
    decreases k
  {
    hide Chunks;
    ChunksStep(k - 1, chunk);
    if k == 1 {
      assert (all + piece)[..chunk] == all && (all + piece)[chunk..] == piece;
      assert Pieces(piece, chunk) == [piece];
    } else {
      ChunksStep(k - 2, chunk);
      assert (all + piece)[..chunk] == all[..chunk] && (all + piece)[chunk..] == all[chunk..] + piece;
      PiecesGrow(all[chunk..], piece, chunk, k - 1);
    }
  }

  lemma PiecesGrowBySlice(header: seq<Byte>, data: seq<Byte>, start: nat, sent: nat, want: nat,
                          chunk: nat, k: nat)
    requires start + sent + want <= |data| && 0 < want <= chunk && k > 0
    requires |header| + sent == Chunks(k, chunk)
    ensures Pieces(header + data[start..start + sent + want], chunk)
         == Pieces(header + data[start..start + sent], chunk) + [data[start + sent..start + sent + want]]
  {
    hide Chunks, Pieces;
    var all := header + data[start..start + sent];
    var piece := data[start + sent..start + sent + want];
    assert data[start..start + sent + want] == data[start..start + sent] + piece;
    assert header + data[start..start + sent + want] == all + piece;
    PiecesGrow(all, piece, chunk, k);
  }

  /** `size / chunk + 4` rounds of a chunk each pass the end of any payload. */
  lemma RoundsReach(size: nat, chunk: nat)
    requires chunk > HEADER_LEN
    ensures Chunks(size / chunk + 5, chunk) > size + HEADER_LEN
  {
    var q := size / chunk;
    assert q * chunk + chunk > size;
    assert (q + 5) * chunk == q * chunk + 5 * chunk;
  }

  lemma {:induction false} MultiplesAreFull(len: nat, packet: nat)
    requires packet > 0 && len % packet == 0
    ensures forall i :: 0 <= i < |FullPackets(len, packet)| ==> FullPackets(len, packet)[i] == packet
  {
    if len > 0 {
      MultiplesAreApart(0, len, packet);
      UniqueDivMod(len - packet, packet, len / packet - 1, 0);
      MultiplesAreFull(len - packet, packet);
    }
  }

  /** A data phase that breaks off before its payload is complete has shown the device full
      packets only, so the device never takes the part for a whole. */
  lemma BrokenOffShowsNoEnd(s: Session, writes: seq<seq<Byte>>, header: seq<Byte>, data: seq<Byte>,
                            start: nat, size: nat, n: nat)
    requires Sound(s.config) && |header| == HEADER_LEN && n < size
    requires s.BrokeAt(writes, [], header, data, start, size, n)
    ensures forall i :: 0 <= i < |Wire(writes, s.config.packet)| ==> Wire(writes, s.config.packet)[i] == s.config.packet
  {
    var all := header + data[start..start + n];
    var chunk, packet := s.config.writeChunk, s.config.packet;
    assert writes == Pieces(all, chunk);
    var k: nat :| |header| + n == Chunks(k, chunk);
    PiecesOnTheWire(all, chunk, packet);
    ChunksAreWhole(k, chunk, packet);
    MultiplesAreFull(|all|, packet);
    hide Pieces, Wire, FullPackets;
  }

  lemma ChunksAreWhole(k: nat, chunk: nat, packet: nat)
    requires packet > 0 && chunk % packet == 0
    ensures Chunks(k, chunk) % packet == 0
  {
    var q := chunk / packet;
    assert chunk == q * packet;
    assert k * chunk == (k * q) * packet;
    ProductIsMultiple(k * q, packet);
  }
}
