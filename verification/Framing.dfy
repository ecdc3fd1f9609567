/** How a session cuts a payload into writes, and joins transfers into a payload.
    `crates/mtp-session/src/lib.rs`, lines 72 to 133, 478 to 480 and 634 to 829. */
module Framing {
  import opened Bytes
  import opened Wrappers
  import opened Container

  const READ_BUFFER_MIN := 512
  const USB2_PACKET := 512
  const MAX_DATA_BYTES := 64 * 1024 * 1024 * 1024
  const MAX_READ_ROUNDS := MAX_DATA_BYTES / READ_BUFFER_MIN

  // ----- configuration -----

  datatype Config = Config(readBuffer: nat, writeChunk: nat, packet: nat)

  /** A configuration that breaks no transfer. */
  predicate Sound(c: Config) {
    && c.packet > 0
    && c.readBuffer >= READ_BUFFER_MIN
    && c.writeChunk > HEADER_LEN
    && c.writeChunk % c.packet == 0
  }

  function NextMultiple(n: nat, m: nat): nat
    requires m > 0
  {
    if n % m == 0 then n else n + (m - n % m)
  }

  function Normalised(c: Config): Config {
    var packet := if c.packet == 0 then USB2_PACKET else c.packet;
    var readBuffer := if c.readBuffer < READ_BUFFER_MIN then READ_BUFFER_MIN else c.readBuffer;
    var least := NextMultiple(HEADER_LEN + 1, packet);
    var chunk := if c.writeChunk < least then least else c.writeChunk;
    Config(readBuffer, chunk - chunk % packet, packet)
  }

  lemma MultipleBelow(n: nat, m: nat)
    requires m > 0
    ensures (n - n % m) % m == 0
  {
    var q := n / m;
    assert n - n % m == q * m;
    ProductIsMultiple(q, m);
  }

  lemma ProductIsMultiple(q: nat, m: nat)
    requires m > 0
    ensures (q * m) % m == 0 && q * m / m == q
  {
    assert q * m == m * q + 0;
    UniqueDivMod(q * m, m, q, 0);
  }

  lemma MultiplesAreApart(a: nat, b: nat, m: nat)
    requires m > 0 && a % m == 0 && b % m == 0 && a < b
    ensures a + m <= b && (b - a) % m == 0
  {
    var d := b / m - a / m;
    assert b - a == m * d;
    NonzeroMultipleIsFar(m, d);
    UniqueDivMod(b - a, m, d, 0);
  }

  /** Every configuration becomes sound, a sound one is left alone, and a chunk that has
      room is rounded down by less than one packet. */
  lemma NormalisedIsSound(c: Config)
    ensures Sound(Normalised(c))
    ensures Sound(c) ==> Normalised(c) == c
    ensures var n := Normalised(c);
      c.writeChunk >= HEADER_LEN + n.packet ==> n.writeChunk <= c.writeChunk < n.writeChunk + n.packet
  {
    var packet := Normalised(c).packet;
    var least := NextMultiple(HEADER_LEN + 1, packet);
    NextMultipleIsNext(HEADER_LEN + 1, packet);
    var chunk := if c.writeChunk < least then least else c.writeChunk;
    MultipleBelow(chunk, packet);
    if chunk - chunk % packet < least {
      MultiplesAreApart(chunk - chunk % packet, least, packet);
    }
  }

  lemma NextMultipleIsNext(n: nat, m: nat)
    requires m > 0
    ensures NextMultiple(n, m) % m == 0 && n <= NextMultiple(n, m) < n + m
    ensures forall k: nat :: k % m == 0 && k >= n ==> k >= NextMultiple(n, m)
  {
    if n % m != 0 {
      assert n + (m - n % m) == m * (n / m + 1);
      UniqueDivMod(n + (m - n % m), m, n / m + 1, 0);
    }
    forall k: nat | k % m == 0 && k >= n
      ensures k >= NextMultiple(n, m)
    {
      if k < NextMultiple(n, m) {
        MultiplesAreApart(k, NextMultiple(n, m), m);
      }
    }
  }

  // ----- the sender -----

  /** A sequence in pieces of `chunk`, the last one shorter when it must be. */
  function Pieces(all: seq<Byte>, chunk: nat): seq<seq<Byte>>
    requires chunk > 0
    decreases |all|
  {
    if |all| <= chunk then [all] else [all[..chunk]] + Pieces(all[chunk..], chunk)
  }

  function Join(parts: seq<seq<Byte>>): seq<Byte> {
    if parts == [] then [] else parts[0] + Join(parts[1..])
  }

  predicate NeedsZeroPacket(total: nat, packet: nat) {
    packet != 0 && total % packet == 0
  }

  /** The writes of one data phase: the container in chunks, and a write of no bytes when
      the container ends on a packet boundary. */
  function DataPhase(container: seq<Byte>, chunk: nat, packet: nat): seq<seq<Byte>>
    requires chunk > 0
  {
    Pieces(container, chunk) + (if NeedsZeroPacket(|container|, packet) then [[]] else [])
  }

  /** The lengths of the packets that carry `len` bytes. */
  function FullPackets(len: nat, packet: nat): seq<nat>
    requires packet > 0
  {
    if len == 0 then [] else if len < packet then [len] else [packet] + FullPackets(len - packet, packet)
  }

  function Packets(write: seq<Byte>, packet: nat): seq<nat>
    requires packet > 0
  {
    if write == [] then [0] else FullPackets(|write|, packet)
  }

  /** The packets a device sees. A write of no bytes is one packet of no bytes, and every
      write ends the packet it is in (section 5.8.3 of USB 2.0). */
  function Wire(writes: seq<seq<Byte>>, packet: nat): seq<nat>
    requires packet > 0
  {
    if writes == [] then []
    else Packets(writes[0], packet) + Wire(writes[1..], packet)
  }

  /** Exactly one packet is short, and it is the last. */
  ghost predicate EndsOnce(packets: seq<nat>, packet: nat) {
    packets != []
    && (forall i :: 0 <= i < |packets| - 1 ==> packets[i] == packet)
    && packets[|packets| - 1] < packet
  }

  lemma {:induction false} FullPacketsSplit(whole: nat, rest: nat, packet: nat)
    requires packet > 0 && whole % packet == 0
    ensures FullPackets(whole + rest, packet) == FullPackets(whole, packet) + FullPackets(rest, packet)
  {
    if whole > 0 {
      MultiplesAreApart(0, whole, packet);
      MultiplesAreApart(packet, whole + packet, packet) by {
        assert packet % packet == 0;
        UniqueDivMod(whole + packet, packet, whole / packet + 1, 0);
      }
      assert (whole - packet) % packet == 0 by {
        UniqueDivMod(whole - packet, packet, whole / packet - 1, 0);
      }
      FullPacketsSplit(whole - packet, rest, packet);
    }
  }

  lemma {:induction false} FullPacketsEnd(len: nat, packet: nat)
    requires packet > 0
    ensures len % packet == 0 ==> EndsOnce(FullPackets(len, packet) + [0], packet)
    ensures len % packet != 0 ==> EndsOnce(FullPackets(len, packet), packet)
    ensures len % packet != 0 ==> FullPackets(len, packet)[|FullPackets(len, packet)| - 1] > 0
  {
    if len >= packet {
      assert (len - packet) % packet == len % packet by {
        UniqueDivMod(len - packet, packet, len / packet - 1, len % packet);
      }
      FullPacketsEnd(len - packet, packet);
      assert FullPackets(len, packet) + [0] == [packet] + (FullPackets(len - packet, packet) + [0]);
    } else if len > 0 {
      UniqueDivMod(len, packet, 0, len);
    }
  }

  lemma {:induction false} PiecesJoin(all: seq<Byte>, chunk: nat)
    requires chunk > 0
    ensures Join(Pieces(all, chunk)) == all
    decreases |all|
  {
    if |all| > chunk {
      PiecesJoin(all[chunk..], chunk);
      assert all == all[..chunk] + all[chunk..];
    } else {
      assert Join([all]) == all + Join([]);
    }
  }

  lemma Associates<T>(a: seq<T>, b: seq<T>, c: seq<T>)
    ensures a + (b + c) == (a + b) + c
  {
  }

  lemma {:induction false} JoinAppend(a: seq<seq<Byte>>, b: seq<seq<Byte>>)
    ensures Join(a + b) == Join(a) + Join(b)
  {
    if a == [] {
      assert a + b == b;
    } else {
      JoinAppend(a[1..], b);
      assert (a + b)[1..] == a[1..] + b;
      Associates(a[0], Join(a[1..]), Join(b));
    }
  }

  lemma {:induction false} WireAppend(a: seq<seq<Byte>>, b: seq<seq<Byte>>, packet: nat)
    requires packet > 0
    ensures Wire(a + b, packet) == Wire(a, packet) + Wire(b, packet)
  {
    hide Packets;
    if a == [] {
      assert a + b == b;
    } else {
      WireAppend(a[1..], b, packet);
      assert (a + b)[1..] == a[1..] + b;
      Associates(Packets(a[0], packet), Wire(a[1..], packet), Wire(b, packet));
    }
  }

  /** Chunks of whole packets are invisible on the wire. */
  lemma {:induction false} PiecesOnTheWire(all: seq<Byte>, chunk: nat, packet: nat)
    requires packet > 0 && chunk > 0 && chunk % packet == 0 && all != []
    ensures Wire(Pieces(all, chunk), packet) == FullPackets(|all|, packet)
    decreases |all|
  {
    if |all| > chunk {
      PiecesOnTheWire(all[chunk..], chunk, packet);
      FullPacketsSplit(chunk, |all| - chunk, packet);
      var ps := Pieces(all, chunk);
      assert ps[0] == all[..chunk] && ps[1..] == Pieces(all[chunk..], chunk);
    } else {
      assert Wire([all], packet) == FullPackets(|all|, packet) + Wire([], packet);
    }
  }

  lemma {:induction false} EarlyPiecesAreFull(all: seq<Byte>, chunk: nat, i: nat)
    requires chunk > 0 && i < |Pieces(all, chunk)| - 1
    ensures |Pieces(all, chunk)[i]| == chunk
    decreases |all|
  {
    if i > 0 {
      EarlyPiecesAreFull(all[chunk..], chunk, i - 1);
    }
  }

  /** The framing law. The writes join to the container; each write before the last payload
      write is a whole number of packets; and the device sees exactly one short packet, at
      the very end, of no bytes exactly when the container is a multiple of the packet. */
  lemma DataPhaseEndsOnce(container: seq<Byte>, c: Config)
    requires Sound(c) && container != []
    ensures var writes := DataPhase(container, c.writeChunk, c.packet); var wire := Wire(writes, c.packet);
      && Join(writes) == container
      && (forall i :: 0 <= i < |Pieces(container, c.writeChunk)| - 1 ==> |writes[i]| % c.packet == 0)
      && EndsOnce(wire, c.packet)
      && (wire[|wire| - 1] == 0 <==> |container| % c.packet == 0)
  {
    DataPhaseJoins(container, c.writeChunk, c.packet);
    DataPhaseOnTheWire(container, c.writeChunk, c.packet);
    FullPacketsEnd(|container|, c.packet);
    forall i | 0 <= i < |Pieces(container, c.writeChunk)| - 1
      ensures |DataPhase(container, c.writeChunk, c.packet)[i]| % c.packet == 0
    {
      EarlyPiecesAreFull(container, c.writeChunk, i);
    }
  }

  lemma DataPhaseJoins(container: seq<Byte>, chunk: nat, packet: nat)
    requires chunk > 0
    ensures Join(DataPhase(container, chunk, packet)) == container
  {
    PiecesJoin(container, chunk);
    JoinAppend(Pieces(container, chunk), [[]]);
    assert Join([[]]) == [];
    assert container + [] == container;
    assert Pieces(container, chunk) + [] == Pieces(container, chunk);
  }

  lemma DataPhaseOnTheWire(container: seq<Byte>, chunk: nat, packet: nat)
    requires packet > 0 && chunk > 0 && chunk % packet == 0 && container != []
    ensures Wire(DataPhase(container, chunk, packet), packet) ==
            FullPackets(|container|, packet) + (if |container| % packet == 0 then [0] else [])
  {
    PiecesOnTheWire(container, chunk, packet);
    WireAppend(Pieces(container, chunk), [[]], packet);
    assert Wire([[]], packet) == [0] + Wire([], packet);
    assert Pieces(container, chunk) + [] == Pieces(container, chunk);
    assert FullPackets(|container|, packet) + [] == FullPackets(|container|, packet);
  }

  // ----- the receiver -----

  /** What a transport does for one read. */
  datatype Answer = Transfer(bytes: seq<Byte>) | Empty | Fail

  datatype SessionError =
    | Usb
    | Parse(source: ParseError)
    | Unexpected(expected: ContainerType, got: ContainerType)
    | TooLarge(declared: nat, limit: nat)
    | Incomplete(want: nat, have: nat)
    | ShortRead(want: nat, read: nat)
    | Build(len: nat)

  datatype Taken = Taken(bytes: seq<Byte>, rest: seq<Answer>)

  /** One read into a buffer of `size`. A script that ran out gives an empty read. */
  function ReadOnce(script: seq<Answer>, size: nat): Result<Taken, SessionError> {
    if script == [] then Success(Taken([], []))
    else
      match script[0]
      case Transfer(b) => Success(Taken(if |b| <= size then b else b[..size], script[1..]))
      case Empty => Success(Taken([], script[1..]))
      case Fail => Failure(Usb)
  }

  /** The reads of a data phase after the first one: `have` bytes are there already. */
  function Gather(script: seq<Answer>, size: nat, have: nat, declared: nat, rounds: nat): Result<Taken,
                  SessionError>
    decreases rounds
  {
    if have >= declared || rounds == 0 then Success(Taken([], script))
    else
      var t :- ReadOnce(script, size);
      if t.bytes == [] then Success(Taken([], t.rest))
      else
        var more :- Gather(t.rest, size, have + |t.bytes|, declared, rounds - 1);
        Success(Taken(t.bytes + more.bytes, more.rest))
  }

  function Rounds(declared: nat, size: nat): nat
    requires size > 0
  {
    var n := declared / size + 16;
    if n < MAX_READ_ROUNDS then n else MAX_READ_ROUNDS
  }

  datatype Reply = Reply(code: U16, params: seq<U32>, payload: seq<Byte>, rest: seq<Answer>)

  function ReadResponse(script: seq<Answer>, size: nat, payload: seq<Byte>): Result<Reply, SessionError> {
    var t :- ReadOnce(script, size);
    match Container.Parse(t.bytes)
    case Failure(e) => Failure(Parse(e))
    case Success(c) =>
      if c.header.kind != Response then Failure(Unexpected(Response, c.header.kind))
      else Success(Reply(c.header.code, Parameters(c.payload), payload, t.rest))
  }

  function ReadData(first: seq<Byte>, declared: nat, script: seq<Answer>, size: nat): Result<Reply,
                    SessionError>
    requires size > 0 && |first| >= HEADER_LEN
  {
    if declared > MAX_DATA_BYTES then Failure(TooLarge(declared, MAX_DATA_BYTES))
    else
      var more :- Gather(script, size, |first|, declared, Rounds(declared, size));
      var have := |first| + |more.bytes|;
      if have < declared then Failure(Incomplete(declared, have))
      else ReadResponse(more.rest, size, first[HEADER_LEN..] + more.bytes)
  }

  function ReadAnswer(script: seq<Answer>, size: nat): Result<Reply, SessionError>
    requires size > 0
  {
    var t :- ReadOnce(script, size);
    match ParseHeader(t.bytes)
    case Failure(e) => Failure(Parse(e))
    case Success(h) =>
      match h.kind
      case Data => ReadData(t.bytes, h.length, t.rest, size)
      case Response =>
        (match Container.Parse(t.bytes)
         case Failure(e) => Failure(Parse(e))
         case Success(c) => Success(Reply(c.header.code, Parameters(c.payload), [], t.rest)))
      case Command => Failure(Unexpected(Response, Command))
      case Event => Failure(Unexpected(Response, Event))
  }

  // ----- for any script at all, a short payload is never reported as complete -----

  /** The bytes the first `n` reads of a script give. */
  function Received(script: seq<Answer>, size: nat, n: nat): seq<Byte>
    requires n <= |script|
  {
    if n == 0 then []
    else
      (match ReadOnce(script, size)
       case Success(t) => t.bytes + Received(script[1..], size, n - 1)
       case Failure(_) => Received(script[1..], size, n - 1))
  }

  lemma {:induction false} GatherReceives(script: seq<Answer>, size: nat, have: nat, declared: nat,
                                          rounds: nat)
    returns (n: nat)
    requires Gather(script, size, have, declared, rounds).Success?
    ensures n <= |script|
    ensures Gather(script, size, have, declared, rounds).value.bytes == Received(script, size, n)
    decreases rounds
  {
    n := 0;
    if have < declared && rounds > 0 {
      var t := ReadOnce(script, size).value;
      if t.bytes != [] {
        var m := GatherReceives(t.rest, size, have + |t.bytes|, declared, rounds - 1);
        n := m + 1;
      }
    }
  }

  lemma HeaderNeedsBytes(buf: seq<Byte>)
    ensures ParseHeader(buf).Success? ==> |buf| >= HEADER_LEN
  {
  }

  lemma ResponsePayload(script: seq<Answer>, size: nat, payload: seq<Byte>)
    ensures ReadResponse(script, size, payload).Success? ==>
            ReadResponse(script, size, payload).value.payload == payload
  {
  }

  /** Success after a data phase means the declared bytes arrived, and that the payload is
      the joined transfers without the header. `n` is the count of transfers joined. */
  lemma NeverShort(script: seq<Answer>, size: nat) returns (n: nat)
    requires size > 0 && ReadAnswer(script, size).Success?
    requires ParseHeader(ReadOnce(script, size).value.bytes).value.kind == Data
    ensures n <= |script|
    ensures var declared := ParseHeader(ReadOnce(script, size).value.bytes).value.length;
      && |Received(script, size, n)| >= declared
      && |Received(script, size, n)| >= HEADER_LEN
      && ReadAnswer(script, size).value.payload == Received(script, size, n)[HEADER_LEN..]
  {
    hide ParseHeader, ReadResponse, Container.Parse, Parameters;
    var t := ReadOnce(script, size).value;
    assert script != [] by {
      HeaderNeedsBytes(t.bytes);
    }
    var declared := ParseHeader(t.bytes).value.length;
    HeaderNeedsBytes(t.bytes);
    var m := GatherReceives(t.rest, size, |t.bytes|, declared, Rounds(declared, size));
    n := m + 1;
    var more := Received(t.rest, size, m);
    ResponsePayload(Gather(t.rest, size, |t.bytes|, declared, Rounds(declared, size)).value.rest, size,
                    t.bytes[HEADER_LEN..] + more);
    assert Received(script, size, n) == t.bytes + more;
    assert (t.bytes + more)[HEADER_LEN..] == t.bytes[HEADER_LEN..] + more;
  }

  // ----- an honest answer reads back -----

  function Transfers(parts: seq<seq<Byte>>): seq<Answer> {
    if parts == [] then [] else [Transfer(parts[0])] + Transfers(parts[1..])
  }

  lemma {:induction false} GatherJoinsPieces(all: seq<Byte>, size: nat, tail: seq<Answer>, have: nat,
                                             declared: nat, rounds: nat)
    requires size > 0 && all != [] && have + |all| == declared
    requires rounds * size >= |all|
    ensures Gather(Transfers(Pieces(all, size)) + tail, size, have, declared, rounds) == Success(Taken(all, tail))
    decreases |all|
  {
    var script := Transfers(Pieces(all, size)) + tail;
    if |all| > size {
      var head := all[..size];
      assert Pieces(all, size)[1..] == Pieces(all[size..], size);
      assert script == [Transfer(head)] + (Transfers(Pieces(all[size..], size)) + tail);
      assert rounds * size == (rounds - 1) * size + size;
      GatherJoinsPieces(all[size..], size, tail, have + size, declared, rounds - 1);
      assert head + all[size..] == all;
    } else {
      assert Transfers([all]) == [Transfer(all)] + Transfers([]);
      assert script == [Transfer(all)] + tail;
      assert all + [] == all;
    }
  }

  lemma RoundsAreEnough(declared: U32, size: nat)
    requires size >= READ_BUFFER_MIN
    ensures Rounds(declared, size) * size >= declared
  {
    var q := declared / size;
    assert declared < q * size + size;
    assert 512 * q <= size * q <= declared;
    assert (q + 16) * size == q * size + 16 * size;
  }

  lemma ResponseParses(r: Header, params: seq<U32>)
    requires r.length == HEADER_LEN + 4 * |params|
    ensures Container.Parse(HeaderBytes(r) + ParamBytes(params)) == Success(Packet(r, ParamBytes(params)))
    ensures Parameters(ParamBytes(params)) == params
  {
    var payload := ParamBytes(params);
    var head := HeaderBytes(r);
    assert head + payload + [] == head + payload;
    ParseUndoesLayout(r, payload, []);
    ParametersUndoParamBytes(params, []);
    assert payload + [] == payload;
  }

  lemma ResponseReads(r: Header, params: seq<U32>, size: nat, tail: seq<Answer>, payload: seq<Byte>)
    requires r.kind == Response && r.length == HEADER_LEN + 4 * |params| <= size
    ensures ReadResponse([Transfer(HeaderBytes(r) + ParamBytes(params))] + tail, size, payload)
         == Success(Reply(r.code, params, payload, tail))
  {
    ResponseParses(r, params);
    var b := HeaderBytes(r) + ParamBytes(params);
    assert ([Transfer(b)] + tail)[1..] == tail;
    hide HeaderBytes, ParseHeader, ParamBytes, Container.Parse;
    var t := ReadOnce([Transfer(b)] + tail, size).value;
    assert t.bytes == b && t.rest == tail;
  }

  /** A data container cut into full reads, and then a response, reads back whole. */
  lemma ReadAnswerUndoesBuild(
    d: Header, payload: seq<Byte>, r: Header, params: seq<U32>, size: nat, tail: seq<Answer>)
    requires size >= READ_BUFFER_MIN
    requires d.kind == Data && d.length == HEADER_LEN + |payload|
    requires r.kind == Response && r.length == HEADER_LEN + 4 * |params| <= size
    ensures var script := Transfers(Pieces(HeaderBytes(d) + payload, size))
                          + ([Transfer(HeaderBytes(r) + ParamBytes(params))] + tail);
      ReadAnswer(script, size) == Success(Reply(r.code, params, payload, tail))
  {
    var all := HeaderBytes(d) + payload;
    var after := [Transfer(HeaderBytes(r) + ParamBytes(params))] + tail;
    var first := if |all| <= size then all else all[..size];
    var later := all[|first|..];
    FirstTransferParses(d, payload, size);
    SplitAtFirst(all, size, after);
    hide HeaderBytes, ParamBytes, ParseHeader, Container.Parse;
    RoundsAreEnough(d.length, size);
    if later != [] {
      GatherJoinsPieces(later, size, after, |first|, d.length, Rounds(d.length, size));
    }
    ResponseReads(r, params, size, tail, payload);
  }

  lemma FirstTransferParses(d: Header, payload: seq<Byte>, size: nat)
    requires size >= READ_BUFFER_MIN
    ensures var all := HeaderBytes(d) + payload; var first := if |all| <= size then all else all[..size];
      && ParseHeader(first) == Success(d)
      && first[HEADER_LEN..] + all[|first|..] == payload
  {
    var head := HeaderBytes(d);
    var all := head + payload;
    var first := if |all| <= size then all else all[..size];
    assert first == head + first[HEADER_LEN..];
    ParseHeaderUndoesLayout(d, first[HEADER_LEN..]);
  }

  /** The first transfer of a container in full reads, and the script after it. */
  lemma SplitAtFirst(all: seq<Byte>, size: nat, after: seq<Answer>)
    requires size > 0
    ensures var first := if |all| <= size then all else all[..size]; var later := all[|first|..];
      ReadOnce(Transfers(Pieces(all, size)) + after, size) ==
      Success(Taken(first, if later == [] then after else Transfers(Pieces(later, size)) + after))
  {
    if |all| <= size {
      assert Transfers([all]) == [Transfer(all)] + Transfers([]);
      assert [Transfer(all)] + after == Transfers([all]) + after;
      assert ([Transfer(all)] + after)[1..] == after;
    } else {
      var rest := Transfers(Pieces(all[size..], size));
      assert Pieces(all, size)[1..] == Pieces(all[size..], size);
      assert Transfers(Pieces(all, size)) == [Transfer(all[..size])] + rest;
      assert ([Transfer(all[..size])] + rest + after)[1..] == rest + after;
    }
  }

  /** An answer with no data phase reads as a response and an empty payload. */
  lemma ReadAnswerUndoesResponse(r: Header, params: seq<U32>, size: nat, tail: seq<Answer>)
    requires r.kind == Response && r.length == HEADER_LEN + 4 * |params| <= size
    ensures ReadAnswer([Transfer(HeaderBytes(r) + ParamBytes(params))] + tail, size)
         == Success(Reply(r.code, params, [], tail))
  {
    ResponseReads(r, params, size, tail, []);
  }
}
