/** The PTP container: a 12 byte header and a payload.
    `crates/ptp-proto/src/lib.rs`, lines 27 to 429. */
module Container {
  import opened Bytes
  import opened Wrappers

  const HEADER_LEN := 12
  /** The length field is a `u32` and counts the header. */
  const MAX_PAYLOAD_LEN := 0xffff_ffff - HEADER_LEN
  const MAX_PARAMS := 5

  /** A fault in a byte buffer that holds PTP data. */
  datatype ParseError =
    | ShortHeader(got: nat)
    | LengthMismatch(declared: nat, available: nat)
    | UnknownContainerType(wire: U16)
    | Truncated(field: string, need: nat, got: nat)
    | BadString(field: string)
    | Unsupported(field: string, value: nat)

  datatype ContainerType = Command | Data | Response | Event

  function ToWire(kind: ContainerType): U16 {
    match kind
    case Command => 1
    case Data => 2
    case Response => 3
    case Event => 4
  }

  function FromWire(v: U16): Result<ContainerType, ParseError> {
    match v
    case 1 => Success(Command)
    case 2 => Success(Data)
    case 3 => Success(Response)
    case 4 => Success(Event)
    case _ => Failure(UnknownContainerType(v))
  }

  datatype Header = Header(length: U32, kind: ContainerType, code: U16, tid: U32)

  datatype Packet = Packet(header: Header, payload: seq<Byte>)

  /** Reads the header alone; the length field may pass the end of the buffer. */
  function ParseHeader(buf: seq<Byte>): Result<Header, ParseError> {
    if |buf| < HEADER_LEN then Failure(ShortHeader(|buf|))
    else
      var kind :- FromWire(FromLe16(buf[4..6]));
      Success(Header(FromLe32(buf[..4]), kind, FromLe16(buf[6..8]), FromLe32(buf[8..12])))
  }

  /** Reads a whole container; bytes after the declared length are left alone. */
  function Parse(buf: seq<Byte>): Result<Packet, ParseError> {
    var h :- ParseHeader(buf);
    if h.length < HEADER_LEN || h.length > |buf| then Failure(LengthMismatch(h.length, |buf|))
    else Success(Packet(h, buf[HEADER_LEN..h.length]))
  }

  /** The payload as `u32` parameters; a byte after the last whole one is ignored. */
  function Parameters(payload: seq<Byte>): seq<U32> {
    if |payload| < 4 then [] else [FromLe32(payload[..4])] + Parameters(payload[4..])
  }

  function ContainerLength(payloadLen: nat): Result<U32, nat> {
    if payloadLen > MAX_PAYLOAD_LEN then Failure(payloadLen) else Success(HEADER_LEN + payloadLen)
  }

  /** The 12 bytes of a header, as the wire format lays them out. */
  function HeaderBytes(h: Header): (b: seq<Byte>)
    ensures |b| == HEADER_LEN
  {
    Le32(h.length) + Le16(ToWire(h.kind)) + Le16(h.code) + Le32(h.tid)
  }

  function ParamBytes(params: seq<U32>): (b: seq<Byte>)
    ensures |b| == 4 * |params|
  {
    if params == [] then [] else Le32(params[0]) + ParamBytes(params[1..])
  }

  method PushHeader(out: seq<Byte>, length: U32, kind: ContainerType, code: U16, tid: U32)
    returns (res: seq<Byte>)
    ensures res == out + HeaderBytes(Header(length, kind, code, tid))
  {
    res := out;
    res := res + Le32(length);
    res := res + Le16(ToWire(kind));
    res := res + Le16(code);
    res := res + Le32(tid);
  }

  method Build(kind: ContainerType, code: U16, tid: U32, payload: seq<Byte>)
    returns (r: Result<seq<Byte>, nat>)
    ensures r.Success? <==> |payload| <= MAX_PAYLOAD_LEN
    ensures r.Success? ==> r.value == HeaderBytes(Header(HEADER_LEN + |payload|, kind, code, tid)) + payload
  {
    var length :- ContainerLength(|payload|);
    var out := PushHeader([], length, kind, code, tid);
    out := out + payload;
    r := Success(out);
  }

  /** The header of a data container whose payload follows in later writes. */
  method BuildDataHeader(code: U16, tid: U32, payloadLen: nat) returns (r: Result<seq<Byte>, nat>)
    ensures r.Success? <==> payloadLen <= MAX_PAYLOAD_LEN
    ensures r.Success? ==> r.value == HeaderBytes(Header(HEADER_LEN + payloadLen, Data, code, tid))
  {
    var length :- ContainerLength(payloadLen);
    var out := PushHeader([], length, Data, code, tid);
    r := Success(out);
  }

  function CommandBytes(code: U16, tid: U32, params: seq<U32>): seq<Byte> {
    var kept := if |params| <= MAX_PARAMS then params else params[..MAX_PARAMS];
    HeaderBytes(Header(HEADER_LEN + 4 * |kept|, Command, code, tid)) + ParamBytes(kept)
  }

  method BuildCommand(code: U16, tid: U32, params: seq<U32>) returns (out: seq<Byte>)
    ensures out == CommandBytes(code, tid, params)
  {
    hide HeaderBytes, ParamBytes;
    var take := if |params| < MAX_PARAMS then |params| else MAX_PARAMS;
    out := PushHeader([], HEADER_LEN + take * 4, Command, code, tid);
    ghost var head := out;
    var kept := params[..take];
    for i := 0 to take
      invariant out == head + ParamBytes(kept[..i])
    {
      ParamBytesSnoc(kept[..i], kept[i]);
      assert kept[..i] + [kept[i]] == kept[..i + 1];
      out := out + Le32(kept[i]);
    }
    assert kept[..take] == kept;
    assert |params| <= MAX_PARAMS ==> kept == params;
  }

  // ----- what the layout means -----

  lemma {:induction false} ParamBytesSnoc(ps: seq<U32>, p: U32)
    ensures ParamBytes(ps + [p]) == ParamBytes(ps) + Le32(p)
  {
    if ps == [] {
      assert ParamBytes([p]) == Le32(p) + ParamBytes([]);
    } else {
      ParamBytesSnoc(ps[1..], p);
      assert (ps + [p])[1..] == ps[1..] + [p];
    }
  }

  lemma ParseHeaderUndoesLayout(h: Header, rest: seq<Byte>)
    ensures ParseHeader(HeaderBytes(h) + rest) == Success(h)
  {
    var buf := HeaderBytes(h) + rest;
    assert buf[..4] == Le32(h.length);
    assert buf[4..6] == Le16(ToWire(h.kind));
    assert buf[6..8] == Le16(h.code);
    assert buf[8..12] == Le32(h.tid);
    Le32RoundTrip(h.length);
    Le32RoundTrip(h.tid);
  }

  /** A container reads back, whatever bytes follow it in the buffer. */
  lemma ParseUndoesLayout(h: Header, payload: seq<Byte>, tail: seq<Byte>)
    requires h.length == HEADER_LEN + |payload|
    ensures Parse(HeaderBytes(h) + payload + tail) == Success(Packet(h, payload))
  {
    var buf := HeaderBytes(h) + payload + tail;
    assert buf == HeaderBytes(h) + (payload + tail);
    ParseHeaderUndoesLayout(h, payload + tail);
    assert buf[HEADER_LEN..h.length] == payload;
  }

  /** Nothing else reads: a buffer that parses begins with the one layout of what it gave. */
  lemma ParseAcceptsOnlyLayouts(buf: seq<Byte>)
    requires Parse(buf).Success?
    ensures var c := Parse(buf).value;
      && c.header.length == HEADER_LEN + |c.payload| <= |buf|
      && buf[..c.header.length] == HeaderBytes(c.header) + c.payload
  {
    var h := Parse(buf).value.header;
    FromLe32Inverse(buf[..4]);
    FromLe16Inverse(buf[4..6]);
    FromLe32Inverse(buf[8..12]);
    assert HeaderBytes(h) == buf[..4] + buf[4..6] + buf[6..8] + buf[8..12] == buf[..12];
    assert buf[..h.length] == buf[..12] + buf[12..h.length];
  }

  lemma {:induction false} ParametersUndoParamBytes(ps: seq<U32>, junk: seq<Byte>)
    requires |junk| < 4
    ensures Parameters(ParamBytes(ps) + junk) == ps
  {
    if ps != [] {
      var b := ParamBytes(ps) + junk;
      assert b[..4] == Le32(ps[0]);
      assert b[4..] == ParamBytes(ps[1..]) + junk;
      Le32RoundTrip(ps[0]);
      ParametersUndoParamBytes(ps[1..], junk);
    }
  }
}
