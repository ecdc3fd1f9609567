/** The cursor that reads fields from a dataset, and PTP strings.
    `crates/ptp-proto/src/lib.rs`, lines 261 to 492. */
module Reader {
  import opened Bytes
  import opened Wrappers
  import opened Container

  /** A name is a sequence of UTF-16 code units. */
  type Name = seq<U16>

  /** What one read gives: the value, and the bytes that follow it. */
  datatype Got<T> = Got(value: T, rest: seq<Byte>)

  /** The most code units the count byte of a PTP string leaves for the name. */
  const MAX_UNITS := 254

  // ----- UTF-16 -----

  predicate IsHigh(u: U16) {
    0xd800 <= u < 0xdc00
  }

  predicate IsLow(u: U16) {
    0xdc00 <= u < 0xe000
  }

  /** Every surrogate stands in a pair, high half first. */
  predicate WellFormed(s: Name) {
    if s == [] then true
    else if IsLow(s[0]) then false
    else if IsHigh(s[0]) then |s| >= 2 && IsLow(s[1]) && WellFormed(s[2..])
    else WellFormed(s[1..])
  }

  function UnitBytes(s: Name): (b: seq<Byte>)
    ensures |b| == 2 * |s|
  {
    if s == [] then [] else Le16(s[0]) + UnitBytes(s[1..])
  }

  function UnitsOf(b: seq<Byte>): (s: Name)
    ensures |s| == |b| / 2
  {
    if |b| < 2 then [] else [FromLe16(b[..2])] + UnitsOf(b[2..])
  }

  // ----- reads, as functions of the bytes that remain -----

  function GetBytes(b: seq<Byte>, n: nat, field: string): Result<Got<seq<Byte>>, ParseError> {
    if |b| < n then Failure(Truncated(field, n, |b|)) else Success(Got(b[..n], b[n..]))
  }

  function GetU8(b: seq<Byte>, field: string): Result<Got<Byte>, ParseError> {
    var g :- GetBytes(b, 1, field);
    Success(Got(g.value[0], g.rest))
  }

  function GetU16(b: seq<Byte>, field: string): Result<Got<U16>, ParseError> {
    var g :- GetBytes(b, 2, field);
    Success(Got(FromLe16(g.value), g.rest))
  }

  function GetU32(b: seq<Byte>, field: string): Result<Got<U32>, ParseError> {
    var g :- GetBytes(b, 4, field);
    Success(Got(FromLe32(g.value), g.rest))
  }

  function GetU64(b: seq<Byte>, field: string): Result<Got<U64>, ParseError> {
    var g :- GetBytes(b, 8, field);
    Success(Got(FromLe64(g.value), g.rest))
  }

  /** Drops the terminator, when the string ends with one. */
  function DropTerminator(s: Name): Name {
    if s != [] && s[|s| - 1] == 0 then s[..|s| - 1] else s
  }

  function GetString(b: seq<Byte>, field: string): Result<Got<Name>, ParseError> {
    var count :- GetU8(b, field);
    if count.value == 0 then Success(Got([], count.rest))
    else
      var g :- GetBytes(count.rest, 2 * (count.value as int), field);
      var name := DropTerminator(UnitsOf(g.value));
      if WellFormed(name) then Success(Got(name, g.rest)) else Failure(BadString(field))
  }

  /** Where the cursor stands after a string, read or not: a fault after the count
      byte leaves the count byte consumed, and a damaged string is consumed whole. */
  function AfterString(b: seq<Byte>): seq<Byte> {
    if b == [] then b
    else if |b| - 1 < 2 * (b[0] as int) then b[1..]
    else b[1 + 2 * (b[0] as int)..]
  }

  lemma AfterStringIsRest(b: seq<Byte>, field: string)
    ensures GetString(b, field).Success? ==> AfterString(b) == GetString(b, field).value.rest
  {
    if b != [] && |b| - 1 >= 2 * (b[0] as int) {
      assert b[1..][2 * (b[0] as int)..] == b[1 + 2 * (b[0] as int)..];
    }
  }

  method DecodeUnits(bytes: seq<Byte>) returns (units: Name)
    requires |bytes| % 2 == 0
    ensures units == UnitsOf(bytes)
  {
    units := [];
    for i := 0 to |bytes| / 2
      invariant units + UnitsOf(bytes[2 * i..]) == UnitsOf(bytes)
    {
      assert bytes[2 * i..][..2] == bytes[2 * i..2 * i + 2];
      assert bytes[2 * i..][2..] == bytes[2 * (i + 1)..];
      units := units + [FromLe16(bytes[2 * i..2 * i + 2])];
    }
  }

  // ----- the cursor -----

  class Cursor {
    const buf: seq<Byte>
    var pos: nat

    ghost predicate Valid()
      reads this
    {
      pos <= |buf|
    }

    function Rest(): seq<Byte>
      reads this
      requires Valid()
    {
      buf[pos..]
    }

    constructor (buf: seq<Byte>)
      ensures Valid() && this.buf == buf && Rest() == buf
    {
      this.buf := buf;
      pos := 0;
    }

    method Take(n: nat, field: string) returns (r: Result<seq<Byte>, ParseError>)
      requires Valid()
      modifies this
      ensures Valid()
      ensures match GetBytes(old(Rest()), n, field)
              case Success(g) => r == Success(g.value) && Rest() == g.rest
              case Failure(e) => r == Failure(e) && Rest() == old(Rest())
    {
      if |buf| - pos < n {
        return Failure(Truncated(field, n, |buf| - pos));
      }
      assert buf[pos..][..n] == buf[pos..pos + n];
      assert buf[pos..][n..] == buf[pos + n..];
      r := Success(buf[pos..pos + n]);
      pos := pos + n;
    }

    method ReadU8(field: string) returns (r: Result<Byte, ParseError>)
      requires Valid()
      modifies this
      ensures Valid()
      ensures match GetU8(old(Rest()), field)
              case Success(g) => r == Success(g.value) && Rest() == g.rest
              case Failure(e) => r == Failure(e) && Rest() == old(Rest())
    {
      var b :- Take(1, field);
      r := Success(b[0]);
    }

    method ReadU16(field: string) returns (r: Result<U16, ParseError>)
      requires Valid()
      modifies this
      ensures Valid()
      ensures match GetU16(old(Rest()), field)
              case Success(g) => r == Success(g.value) && Rest() == g.rest
              case Failure(e) => r == Failure(e) && Rest() == old(Rest())
    {
      var b :- Take(2, field);
      r := Success(FromLe16(b));
    }

    method ReadU32(field: string) returns (r: Result<U32, ParseError>)
      requires Valid()
      modifies this
      ensures Valid()
      ensures match GetU32(old(Rest()), field)
              case Success(g) => r == Success(g.value) && Rest() == g.rest
              case Failure(e) => r == Failure(e) && Rest() == old(Rest())
    {
      var b :- Take(4, field);
      r := Success(FromLe32(b));
    }

    method ReadU64(field: string) returns (r: Result<U64, ParseError>)
      requires Valid()
      modifies this
      ensures Valid()
      ensures match GetU64(old(Rest()), field)
              case Success(g) => r == Success(g.value) && Rest() == g.rest
              case Failure(e) => r == Failure(e) && Rest() == old(Rest())
    {
      var b :- Take(8, field);
      r := Success(FromLe64(b));
    }

    method ReadString(field: string) returns (r: Result<Name, ParseError>)
      requires Valid()
      modifies this
      ensures Valid()
      ensures Rest() == AfterString(old(Rest()))
      ensures match GetString(old(Rest()), field)
              case Success(g) => r == Success(g.value) && Rest() == g.rest
              case Failure(e) => r == Failure(e)
    {
      AfterStringIsRest(Rest(), field);
      var count :- ReadU8(field);
      if count == 0 {
        return Success([]);
      }
      var bytes :- Take(2 * (count as int), field);
      var units := DecodeUnits(bytes);
      if units != [] && units[|units| - 1] == 0 {
        units := units[..|units| - 1];
      }
      r := if WellFormed(units) then Success(units) else Failure(BadString(field));
    }
  }

  // ----- writing a string -----

  /** The part of a name a PTP string carries. */
  function Cut(s: Name): Name {
    var take := if |s| < MAX_UNITS then |s| else MAX_UNITS;
    if 0 < take < |s| && IsHigh(s[take - 1]) then s[..take - 1] else s[..take]
  }

  /** Code units and their terminator. */
  function TextBytes(s: Name): seq<Byte> {
    UnitBytes(s) + [0, 0]
  }

  function StringBytes(s: Name): seq<Byte> {
    if s == [] then [0] else [|Cut(s)| + 1] + TextBytes(Cut(s))
  }

  method PushString(out: seq<Byte>, s: Name) returns (res: seq<Byte>)
    ensures res == out + StringBytes(s)
  {
    if s == [] {
      return out + [0];
    }
    var take := if |s| < MAX_UNITS then |s| else MAX_UNITS;
    if take < |s| && take > 0 && IsHigh(s[take - 1]) {
      take := take - 1;
    }
    assert s[..take] == Cut(s);
    res := out + [take + 1];
    ghost var head := res;
    for i := 0 to take
      invariant res == head + UnitBytes(s[..i])
    {
      UnitBytesSnoc(s[..i], s[i]);
      assert s[..i] + [s[i]] == s[..i + 1];
      res := res + Le16(s[i]);
    }
    assert res == head + UnitBytes(Cut(s));
    res := res + Le16(0);
    assert res == out + ([take + 1] + TextBytes(Cut(s)));
  }

  // ----- a string reads back as the longest prefix that is still text -----

  lemma {:induction false} UnitBytesSnoc(s: Name, u: U16)
    ensures UnitBytes(s + [u]) == UnitBytes(s) + Le16(u)
  {
    if s == [] {
      assert UnitBytes([u]) == Le16(u) + UnitBytes([]);
    } else {
      UnitBytesSnoc(s[1..], u);
      assert (s + [u])[1..] == s[1..] + [u];
    }
  }

  lemma {:induction false} UnitsUndoBytes(s: Name)
    ensures UnitsOf(UnitBytes(s)) == s
  {
    if s != [] {
      var b := UnitBytes(s);
      assert b[..2] == Le16(s[0]) && b[2..] == UnitBytes(s[1..]);
      Le16RoundTrip(s[0]);
      UnitsUndoBytes(s[1..]);
    }
  }

  /** A prefix of text is text exactly when the cut does not part a surrogate pair. */
  lemma {:induction false} PrefixIsTextIff(s: Name, k: nat)
    requires WellFormed(s) && k <= |s|
    ensures WellFormed(s[..k]) <==> !(0 < k < |s| && IsHigh(s[k - 1]))
    decreases |s|
  {
    if k == 0 || s == [] {
    } else if IsHigh(s[0]) {
      if k >= 2 {
        assert s[..k][2..] == s[2..][..k - 2];
        PrefixIsTextIff(s[2..], k - 2);
      }
    } else {
      assert s[..k][1..] == s[1..][..k - 1];
      PrefixIsTextIff(s[1..], k - 1);
    }
  }

  /** `Cut` gives text of at most 254 units, and no longer prefix is both. */
  lemma CutIsLongest(s: Name, k: nat)
    requires WellFormed(s) && k <= |s|
    ensures Cut(s) == s[..|Cut(s)|] && |Cut(s)| <= MAX_UNITS && WellFormed(Cut(s))
    ensures k <= MAX_UNITS && WellFormed(s[..k]) ==> k <= |Cut(s)|
  {
    PrefixIsTextIff(s, |Cut(s)|);
    PrefixIsTextIff(s, k);
    if |s| > MAX_UNITS && IsHigh(s[MAX_UNITS - 1]) && IsHigh(s[MAX_UNITS - 2]) {
      PrefixIsTextIff(s, MAX_UNITS - 1);
      HighIsFollowedByLow(s, MAX_UNITS - 2);
    }
  }

  lemma {:induction false} HighIsFollowedByLow(s: Name, i: nat)
    requires WellFormed(s) && i < |s| && IsHigh(s[i])
    ensures i + 1 < |s| && IsLow(s[i + 1])
    decreases |s|
  {
    if IsHigh(s[0]) {
      if i >= 2 {
        HighIsFollowedByLow(s[2..], i - 2);
      }
    } else {
      HighIsFollowedByLow(s[1..], i - 1);
    }
  }

  /** The bytes between the count and the tail read as the name and its terminator. */
  lemma TextUnits(name: Name)
    ensures DropTerminator(UnitsOf(TextBytes(name))) == name
  {
    UnitBytesSnoc(name, 0);
    UnitsUndoBytes(name + [0]);
    assert Le16(0) == [0, 0];
  }

  lemma CountedReads(n: Byte, body: seq<Byte>, tail: seq<Byte>, field: string)
    requires n > 0 && |body| == 2 * (n as int)
    requires WellFormed(DropTerminator(UnitsOf(body)))
    ensures GetString([n] + body + tail, field) == Success(Got(DropTerminator(UnitsOf(body)), tail))
  {
    hide UnitsOf, WellFormed, DropTerminator;
    assert [n] + body + tail == [n] + (body + tail);
    U8Reads(n, body + tail, field);
    assert (body + tail)[..|body|] == body;
    assert (body + tail)[|body|..] == tail;
  }

  /** Writing and reading a string gives the name cut to what fits, for every name. */
  lemma StringRoundTrip(s: Name, tail: seq<Byte>, field: string)
    requires WellFormed(s)
    ensures GetString(StringBytes(s) + tail, field) == Success(Got(Cut(s), tail))
    ensures AfterString(StringBytes(s) + tail) == tail
  {
    if s == [] {
      U8Reads(0, tail, field);
    } else {
      CutIsLongest(s, 0);
      TextUnits(Cut(s));
      CountedReads(|Cut(s)| + 1, TextBytes(Cut(s)), tail, field);
    }
    AfterStringIsRest(StringBytes(s) + tail, field);
  }

  // ----- fixed-width fields read back -----

  lemma U8Reads(v: Byte, tail: seq<Byte>, field: string)
    ensures GetU8([v] + tail, field) == Success(Got(v, tail))
  {
    assert ([v] + tail)[1..] == tail;
  }

  lemma U16Reads(v: U16, tail: seq<Byte>, field: string)
    ensures GetU16(Le16(v) + tail, field) == Success(Got(v, tail))
  {
    var b := Le16(v) + tail;
    assert b[..2] == Le16(v) && b[2..] == tail;
    Le16RoundTrip(v);
  }

  lemma U32Reads(v: U32, tail: seq<Byte>, field: string)
    ensures GetU32(Le32(v) + tail, field) == Success(Got(v, tail))
  {
    var b := Le32(v) + tail;
    assert b[..4] == Le32(v) && b[4..] == tail;
    Le32RoundTrip(v);
  }

  lemma U64Reads(v: U64, tail: seq<Byte>, field: string)
    ensures GetU64(Le64(v) + tail, field) == Success(Got(v, tail))
  {
    var b := Le64(v) + tail;
    assert b[..8] == Le64(v) && b[8..] == tail;
    Le64RoundTrip(v);
  }
}
