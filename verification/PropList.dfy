/** The `ObjectPropList` dataset and the records a listing folds it into.
    `crates/ptp-proto/src/lib.rs`, lines 1123 to 1288. */
module PropList {
  import opened Bytes
  import opened Wrappers
  import opened Container
  import opened Reader

  const STORAGE_ID: U16 := 0xdc01
  const OBJECT_FORMAT: U16 := 0xdc02
  const OBJECT_SIZE: U16 := 0xdc04
  const OBJECT_FILE_NAME: U16 := 0xdc07
  const PARENT_OBJECT: U16 := 0xdc0b

  datatype PropValue = Number(n: U64) | Text(name: Name) | Wide

  datatype PropEntry = PropEntry(handle: U32, code: U16, value: PropValue)

  // ----- reading -----

  function GetValue(b: seq<Byte>, kind: U16): Result<Got<PropValue>, ParseError> {
    match kind
    case 1 => var g :- GetU8(b, "prop_u8"); Success(Got(Number(g.value), g.rest))
    case 2 => var g :- GetU8(b, "prop_u8"); Success(Got(Number(g.value), g.rest))
    case 3 => var g :- GetU16(b, "prop_u16"); Success(Got(Number(g.value), g.rest))
    case 4 => var g :- GetU16(b, "prop_u16"); Success(Got(Number(g.value), g.rest))
    case 5 => var g :- GetU32(b, "prop_u32"); Success(Got(Number(g.value), g.rest))
    case 6 => var g :- GetU32(b, "prop_u32"); Success(Got(Number(g.value), g.rest))
    case 7 => var g :- GetU64(b, "prop_u64"); Success(Got(Number(g.value), g.rest))
    case 8 => var g :- GetU64(b, "prop_u64"); Success(Got(Number(g.value), g.rest))
    case 9 => var g :- GetBytes(b, 16, "prop_u128"); Success(Got(Wide, g.rest))
    case 10 => var g :- GetBytes(b, 16, "prop_u128"); Success(Got(Wide, g.rest))
    case 0xffff => var g :- GetString(b, "prop_str"); Success(Got(Text(g.value), g.rest))
    case _ => Failure(Unsupported("prop_type", kind))
  }

  function GetEntry(b: seq<Byte>): Result<Got<PropEntry>, ParseError> {
    var handle :- GetU32(b, "prop_handle");
    var code :- GetU16(handle.rest, "prop_code");
    var kind :- GetU16(code.rest, "prop_type");
    var value :- GetValue(kind.rest, kind.value);
    Success(Got(PropEntry(handle.value, code.value, value.value), value.rest))
  }

  function GetEntries(b: seq<Byte>, count: nat): Result<Got<seq<PropEntry>>, ParseError> {
    if count == 0 then Success(Got([], b))
    else
      var e :- GetEntry(b);
      var es :- GetEntries(e.rest, count - 1);
      Success(Got([e.value] + es.value, es.rest))
  }

  function ParsePropList(data: seq<Byte>): Result<seq<PropEntry>, ParseError> {
    var count :- GetU32(data, "prop_list_count");
    var es :- GetEntries(count.rest, count.value);
    Success(es.value)
  }

  method ReadValue(c: Cursor, kind: U16) returns (r: Result<PropValue, ParseError>)
    requires c.Valid()
    modifies c
    ensures c.Valid()
    ensures match GetValue(old(c.Rest()), kind)
            case Success(g) => r == Success(g.value) && c.Rest() == g.rest
            case Failure(e) => r == Failure(e)
  {
    match kind {
      case 1 => var v :- c.ReadU8("prop_u8"); r := Success(Number(v));
      case 2 => var v :- c.ReadU8("prop_u8"); r := Success(Number(v));
      case 3 => var v :- c.ReadU16("prop_u16"); r := Success(Number(v));
      case 4 => var v :- c.ReadU16("prop_u16"); r := Success(Number(v));
      case 5 => var v :- c.ReadU32("prop_u32"); r := Success(Number(v));
      case 6 => var v :- c.ReadU32("prop_u32"); r := Success(Number(v));
      case 7 => var v :- c.ReadU64("prop_u64"); r := Success(Number(v));
      case 8 => var v :- c.ReadU64("prop_u64"); r := Success(Number(v));
      case 9 => var _ :- c.Take(16, "prop_u128"); r := Success(Wide);
      case 10 => var _ :- c.Take(16, "prop_u128"); r := Success(Wide);
      case 0xffff => var v :- c.ReadString("prop_str"); r := Success(Text(v));
      case _ => r := Failure(Unsupported("prop_type", kind));
    }
  }

  method ReadEntry(c: Cursor) returns (r: Result<PropEntry, ParseError>)
    requires c.Valid()
    modifies c
    ensures c.Valid()
    ensures match GetEntry(old(c.Rest()))
            case Success(g) => r == Success(g.value) && c.Rest() == g.rest
            case Failure(e) => r == Failure(e)
  {
    var handle :- c.ReadU32("prop_handle");
    var code :- c.ReadU16("prop_code");
    var kind :- c.ReadU16("prop_type");
    var value :- ReadValue(c, kind);
    r := Success(PropEntry(handle, code, value));
  }

  method ReadEntries(c: Cursor, count: nat) returns (r: Result<seq<PropEntry>, ParseError>)
    requires c.Valid()
    modifies c
    ensures c.Valid()
    ensures match GetEntries(old(c.Rest()), count)
            case Success(g) => r == Success(g.value)
            case Failure(e) => r == Failure(e)
  {
    hide GetEntry;
    var out: seq<PropEntry> := [];
    ResumesAtStart(c.Rest(), count);
    for i := 0 to count
      invariant c.Valid()
      invariant Resumes(old(c.Rest()), count, out, c.Rest(), count - i)
    {
      ResumesStep(old(c.Rest()), count, out, c.Rest(), count - i);
      var e :- ReadEntry(c);
      out := out + [e];
    }
    assert out + [] == out;
    r := Success(out);
  }

  /** Reading `left` more entries at `rest`, after `out`, finishes the read of `count` at `b`. */
  ghost predicate Resumes(b: seq<Byte>, count: nat, out: seq<PropEntry>, rest: seq<Byte>, left: nat) {
    match GetEntries(rest, left)
    case Success(g) => GetEntries(b, count) == Success(Got(out + g.value, g.rest))
    case Failure(e) => GetEntries(b, count) == Failure(e)
  }

  lemma ResumesAtStart(b: seq<Byte>, count: nat)
    ensures Resumes(b, count, [], b, count)
  {
    if GetEntries(b, count).Success? {
      var es := GetEntries(b, count).value.value;
      assert [] + es == es;
    }
  }

  lemma ResumesStep(b: seq<Byte>, count: nat, out: seq<PropEntry>, rest: seq<Byte>, left: nat)
    requires left > 0 && Resumes(b, count, out, rest, left)
    ensures match GetEntry(rest)
            case Success(g) => Resumes(b, count, out + [g.value], g.rest, left - 1)
            case Failure(e) => GetEntries(b, count) == Failure(e)
  {
    hide GetEntry;
    EntriesStep(rest, left);
    if GetEntry(rest).Success? {
      var e := GetEntry(rest).value;
      match GetEntries(e.rest, left - 1) {
        case Success(g) => assert out + ([e.value] + g.value) == (out + [e.value]) + g.value;
        case Failure(_) =>
      }
    }
  }

  lemma EntriesStep(b: seq<Byte>, count: nat)
    requires count > 0
    ensures GetEntry(b).Failure? ==> GetEntries(b, count) == Failure(GetEntry(b).error)
    ensures GetEntry(b).Success? ==>
      match GetEntries(GetEntry(b).value.rest, count - 1)
      case Success(g) => GetEntries(b, count) == Success(Got([GetEntry(b).value.value] + g.value, g.rest))
      case Failure(e) => GetEntries(b, count) == Failure(e)
  {
  }

  /** `parse_object_prop_list`: the loop runs the count the device declares, and stops at
      the first element the bytes do not hold. */
  method Parse(data: seq<Byte>) returns (r: Result<seq<PropEntry>, ParseError>)
    ensures r == ParsePropList(data)
  {
    var c := new Cursor(data);
    var count :- c.ReadU32("prop_list_count");
    r := ReadEntries(c, count);
  }

  // ----- the work follows the bytes, and not the count the device declares -----

  lemma ValueTakesAByte(b: seq<Byte>, kind: U16)
    ensures GetValue(b, kind).Success? ==> |GetValue(b, kind).value.rest| < |b|
  {
  }

  lemma {:induction false} EntriesFitTheirBytes(b: seq<Byte>, count: nat)
    ensures GetEntries(b, count).Success? ==>
      var g := GetEntries(b, count).value;
      |g.value| == count && 9 * count + |g.rest| <= |b|
    decreases count
  {
    if count > 0 && GetEntry(b).Success? {
      var kind := GetU16(GetU16(GetU32(b, "").value.rest, "").value.rest, "").value;
      ValueTakesAByte(kind.rest, kind.value);
      EntriesFitTheirBytes(GetEntry(b).value.rest, count - 1);
    }
  }

  /** A list that parses holds the declared count, and each entry took nine bytes or more. */
  lemma ListFitsItsBytes(data: seq<Byte>)
    ensures ParsePropList(data).Success? ==>
      |data| >= 4 && |ParsePropList(data).value| == FromLe32(data[..4])
      && 4 + 9 * |ParsePropList(data).value| <= |data|
  {
    if |data| >= 4 {
      EntriesFitTheirBytes(data[4..], FromLe32(data[..4]));
    }
  }

  // ----- what a device sends, and that it reads back -----

  /** One element as a device writes it, in every data type the parser knows. */
  datatype Wire =
    | W8(signed: bool, b: Byte)
    | W16(signed: bool, h: U16)
    | W32(signed: bool, w: U32)
    | W64(signed: bool, q: U64)
    | W128(signed: bool, wide: seq<Byte>)
    | WStr(text: Name)

  datatype Element = Element(handle: U32, code: U16, value: Wire)

  predicate Sendable(e: Element) {
    match e.value
    case W128(_, wide) => |wide| == 16
    case WStr(text) => WellFormed(text)
    case _ => true
  }

  function Kind(v: Wire): U16 {
    match v
    case W8(signed, _) => if signed then 1 else 2
    case W16(signed, _) => if signed then 3 else 4
    case W32(signed, _) => if signed then 5 else 6
    case W64(signed, _) => if signed then 7 else 8
    case W128(signed, _) => if signed then 9 else 10
    case WStr(_) => 0xffff
  }

  function ValueBytes(v: Wire): seq<Byte> {
    match v
    case W8(_, b) => [b]
    case W16(_, h) => Le16(h)
    case W32(_, w) => Le32(w)
    case W64(_, q) => Le64(q)
    case W128(_, wide) => wide
    case WStr(text) => StringBytes(text)
  }

  /** The host's reading of a value: a signed number keeps its bits and loses its sign. */
  function Meaning(e: Element): PropEntry {
    PropEntry(e.handle, e.code,
              match e.value
              case W8(_, b) => Number(b)
              case W16(_, h) => Number(h)
              case W32(_, w) => Number(w)
              case W64(_, q) => Number(q)
              case W128(_, _) => Wide
              case WStr(text) => Text(Cut(text)))
  }

  function ElementBytes(e: Element): seq<Byte> {
    Le32(e.handle) + (Le16(e.code) + (Le16(Kind(e.value)) + ValueBytes(e.value)))
  }

  function ElementsBytes(es: seq<Element>): seq<Byte> {
    if es == [] then [] else ElementBytes(es[0]) + ElementsBytes(es[1..])
  }

  function Meanings(es: seq<Element>): (ms: seq<PropEntry>)
    ensures |ms| == |es| && forall i :: 0 <= i < |es| ==> ms[i] == Meaning(es[i])
  {
    if es == [] then [] else [Meaning(es[0])] + Meanings(es[1..])
  }

  lemma ValueReads(e: Element, tail: seq<Byte>)
    requires Sendable(e)
    ensures GetValue(ValueBytes(e.value) + tail, Kind(e.value)) == Success(Got(Meaning(e).value, tail))
  {
    hide GetU8, GetU16, GetU32, GetU64, GetString, StringBytes, Le16, Le32, Le64;
    match e.value {
      case W8(_, b) => U8Reads(b, tail, "prop_u8");
      case W16(_, h) => U16Reads(h, tail, "prop_u16");
      case W32(_, w) => U32Reads(w, tail, "prop_u32");
      case W64(_, q) => U64Reads(q, tail, "prop_u64");
      case W128(_, wide) => assert (wide + tail)[..16] == wide && (wide + tail)[16..] == tail;
      case WStr(text) => StringRoundTrip(text, tail, "prop_str");
    }
  }

  lemma ElementReads(e: Element, tail: seq<Byte>)
    requires Sendable(e)
    ensures GetEntry(ElementBytes(e) + tail) == Success(Got(Meaning(e), tail))
  {
    var r3 := ValueBytes(e.value) + tail;
    var r2 := Le16(Kind(e.value)) + r3;
    var r1 := Le16(e.code) + r2;
    assert ElementBytes(e) + tail == Le32(e.handle) + r1;
    U32Reads(e.handle, r1, "prop_handle");
    U16Reads(e.code, r2, "prop_code");
    U16Reads(Kind(e.value), r3, "prop_type");
    ValueReads(e, tail);
  }

  lemma {:induction false} ElementsRead(es: seq<Element>, tail: seq<Byte>)
    requires forall e <- es :: Sendable(e)
    ensures GetEntries(ElementsBytes(es) + tail, |es|) == Success(Got(Meanings(es), tail))
  {
    if es == [] {
      assert ElementsBytes(es) + tail == tail;
    } else {
      assert ElementsBytes(es) + tail == ElementBytes(es[0]) + (ElementsBytes(es[1..]) + tail);
      ElementReads(es[0], ElementsBytes(es[1..]) + tail);
      ElementsRead(es[1..], tail);
    }
  }

  /** The parser inverts the encoder, for every mix of data types and every suffix. */
  lemma ParseUndoesEncoding(es: seq<Element>, suffix: seq<Byte>)
    requires |es| < 0x1_0000_0000 && forall e <- es :: Sendable(e)
    ensures ParsePropList(Le32(|es|) + ElementsBytes(es) + suffix) == Success(Meanings(es))
  {
    ElementsRead(es, suffix);
    CountedListReads(|es|, ElementsBytes(es), suffix);
  }

  lemma CountedListReads(n: U32, body: seq<Byte>, suffix: seq<Byte>)
    ensures ParsePropList(Le32(n) + body + suffix) ==
      match GetEntries(body + suffix, n)
      case Success(g) => Success(g.value)
      case Failure(e) => Failure(e)
  {
    var head := Le32(n);
    assert head + body + suffix == head + (body + suffix);
    U32Reads(n, body + suffix, "prop_list_count");
  }
}
