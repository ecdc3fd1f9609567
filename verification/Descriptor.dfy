/** USB descriptor parsing, and the choice of the MTP interface.
    `crates/usb-freebsd/src/descriptor.rs`. */
module Descriptor {
  import opened Bytes
  import opened Wrappers

  const TYPE_CONFIGURATION: Byte := 0x02
  const TYPE_INTERFACE: Byte := 0x04
  const TYPE_ENDPOINT: Byte := 0x05
  const TRANSFER_BULK := 0x02
  const TRANSFER_INTERRUPT := 0x03

  datatype DescriptorError =
    | TooShort(need: nat, got: nat)
    | WrongType(expected: Byte, actual: Byte)
    | ZeroLength(at: nat)
    | RunsPastEnd(at: nat, need: nat, got: nat)
    | EndpointWithoutInterface
    | NoMtpInterface
    | IncompleteMtpEndpoints(hasIn: bool, hasOut: bool)

  datatype Endpoint = Endpoint(address: Byte, transferType: Byte, maxPacketSize: U16)
  {
    predicate IsIn() { address >= 0x80 }

    predicate IsBulk() { transferType == TRANSFER_BULK }

    predicate IsInterrupt() { transferType == TRANSFER_INTERRUPT }
  }

  datatype Interface = Interface(
    number: Byte, alternate: Byte, class_: Byte, subclass: Byte, protocol: Byte,
    stringIndex: Byte, endpoints: seq<Endpoint>)
  {
    predicate IsMtp() { class_ == 0x06 && subclass == 0x01 && protocol == 0x01 }

    predicate IsVendorCandidate() {
      class_ == 0xff && subclass == 0xff && protocol == 0x00 && stringIndex != 0
    }
  }

  datatype Config = Config(totalLength: U16, numInterfaces: Byte, value: Byte, interfaces: seq<Interface>)

  // ----- one descriptor at a time -----

  /** What one descriptor means to the parser: an interface, an endpoint, or neither. */
  datatype Item = IsInterface(i: Interface) | IsEndpoint(e: Endpoint) | IsOther

  /** Reads the descriptor `d`, which holds its own length byte first. */
  function ReadItem(d: seq<Byte>): Result<Item, DescriptorError>
    requires |d| >= 2 ==> d[0] as int == |d|
  {
    if |d| < 2 then Success(IsOther)
    else if d[1] == TYPE_INTERFACE then
      if |d| < 9 then Failure(TooShort(9, |d|))
      else Success(IsInterface(Interface(d[2], d[3], d[5], d[6], d[7], d[8], [])))
    else if d[1] == TYPE_ENDPOINT then
      if |d| < 7 then Failure(TooShort(7, |d|))
      else Success(IsEndpoint(Endpoint(d[2], d[3] % 4, FromLe16(d[4..6]))))
    else Success(IsOther)
  }

  /** The interfaces after one more descriptor. */
  function Attach(ifaces: seq<Interface>, item: Item): Result<seq<Interface>, DescriptorError> {
    match item
    case IsInterface(i) => Success(ifaces + [i])
    case IsEndpoint(e) =>
      if ifaces == [] then Failure(EndpointWithoutInterface)
      else
        var last := |ifaces| - 1;
        Success(ifaces[last := ifaces[last].(endpoints := ifaces[last].endpoints + [e])])
    case IsOther => Success(ifaces)
  }

  // ----- the meaning of a list of descriptors -----

  function AttachAll(ifaces: seq<Interface>, items: seq<Item>): Result<seq<Interface>, DescriptorError>
    decreases |items|
  {
    if items == [] then Success(ifaces)
    else
      var next :- Attach(ifaces, items[0]);
      AttachAll(next, items[1..])
  }

  /** The endpoints before the next interface. */
  function EndpointsHere(items: seq<Item>): seq<Endpoint> {
    if items == [] || items[0].IsInterface? then []
    else if items[0].IsEndpoint? then [items[0].e] + EndpointsHere(items[1..])
    else EndpointsHere(items[1..])
  }

  /** Each interface with the endpoints between it and the next one, in order. */
  function Owned(items: seq<Item>): seq<Interface> {
    if items == [] then []
    else if items[0].IsInterface? then
      [items[0].i.(endpoints := items[0].i.endpoints + EndpointsHere(items[1..]))] + Owned(items[1..])
    else Owned(items[1..])
  }

  /** The first descriptor that counts is an endpoint. */
  predicate StartsWithEndpoint(items: seq<Item>) {
    items != [] && !items[0].IsInterface? && (items[0].IsEndpoint? || StartsWithEndpoint(items[1..]))
  }

  /** The loop gives each endpoint to the nearest interface before it, and faults exactly
      when an endpoint comes before every interface. */
  lemma {:induction false} EndpointsGoToNearestInterface(items: seq<Item>)
    ensures AttachAll([], items) ==
            if StartsWithEndpoint(items) then Failure(EndpointWithoutInterface) else Success(Owned(items))
  {
    if items != [] {
      match items[0] {
        case IsInterface(i) =>
          AttachAllAfterInterface([], i, items[1..]);
          assert [] + [i] == [i];
          var owner := i.(endpoints := i.endpoints + EndpointsHere(items[1..]));
          assert [] + [owner] + Owned(items[1..]) == [owner] + Owned(items[1..]);
        case IsEndpoint(_) =>
        case IsOther => EndpointsGoToNearestInterface(items[1..]);
      }
    }
  }

  lemma {:induction false} AttachAllAfterInterface(done: seq<Interface>, i: Interface, items: seq<Item>)
    ensures AttachAll(done + [i], items) ==
            Success(done + [i.(endpoints := i.endpoints + EndpointsHere(items))] + Owned(items))
    decreases |items|
  {
    if items == [] {
      assert i.(endpoints := i.endpoints + []) == i;
      assert done + [i] + [] == done + [i];
    } else {
      var rest := items[1..];
      match items[0] {
        case IsInterface(j) =>
          AttachAllAfterInterface(done + [i], j, rest);
          assert i.(endpoints := i.endpoints + []) == i;
          var j' := j.(endpoints := j.endpoints + EndpointsHere(rest));
          assert (done + [i]) + [j'] + Owned(rest) == done + [i] + ([j'] + Owned(rest));
        case IsEndpoint(e) =>
          var i' := i.(endpoints := i.endpoints + [e]);
          assert (done + [i])[|done| := i'] == done + [i'];
          AttachAllAfterInterface(done, i', rest);
          assert (i.endpoints + [e]) + EndpointsHere(rest) == i.endpoints + ([e] + EndpointsHere(rest));
        case IsOther =>
          AttachAllAfterInterface(done, i, rest);
      }
    }
  }

  function WithoutOthers(items: seq<Item>): seq<Item> {
    if items == [] then []
    else if items[0].IsOther? then WithoutOthers(items[1..])
    else [items[0]] + WithoutOthers(items[1..])
  }

  /** Class and vendor descriptors, wherever they stand, change nothing. */
  lemma {:induction false} OthersChangeNothing(ifaces: seq<Interface>, items: seq<Item>)
    ensures AttachAll(ifaces, items) == AttachAll(ifaces, WithoutOthers(items))
    decreases |items|
  {
    if items != [] && Attach(ifaces, items[0]).Success? {
      OthersChangeNothing(Attach(ifaces, items[0]).value, items[1..]);
      assert !items[0].IsOther? ==> WithoutOthers(items)[1..] == WithoutOthers(items[1..]);
    }
  }

  // ----- the parser -----

  function ParseFrom(buf: seq<Byte>, pos: nat, end: nat, ifaces: seq<Interface>)
    : Result<seq<Interface>, DescriptorError>
    requires end <= |buf|
    decreases end - pos
  {
    if pos + 2 > end then Success(ifaces)
    else
      var len := buf[pos] as int;
      if len == 0 then Failure(ZeroLength(pos))
      else if pos + len > end then Failure(RunsPastEnd(pos, len, end - pos))
      else
        // A descriptor of one byte borrows its type from the byte after it.
        var item :- if len == 1 then ReadStub(buf[pos + 1]) else ReadItem(buf[pos..pos + len]);
        var next :- Attach(ifaces, item);
        ParseFrom(buf, pos + len, end, next)
  }

  /** A descriptor that gives a length of 1: too short for either kind that counts. */
  function ReadStub(kind: Byte): Result<Item, DescriptorError> {
    if kind == TYPE_INTERFACE then Failure(TooShort(9, 1))
    else if kind == TYPE_ENDPOINT then Failure(TooShort(7, 1))
    else Success(IsOther)
  }

  function ParseSpec(buf: seq<Byte>): Result<Config, DescriptorError> {
    if |buf| < 9 then Failure(TooShort(9, |buf|))
    else if buf[1] != TYPE_CONFIGURATION then Failure(WrongType(TYPE_CONFIGURATION, buf[1]))
    else if buf[0] == 0 then Failure(ZeroLength(0))
    else
      var total := FromLe16(buf[2..4]);
      var end := if |buf| < total then |buf| else total;
      var ifaces :- ParseFrom(buf, buf[0], end, []);
      Success(Config(total, buf[4], buf[5], ifaces))
  }

  /** `ConfigDescriptor::parse`: on any bytes at all it stops, and reads in bounds. */
  method Parse(buf: seq<Byte>) returns (r: Result<Config, DescriptorError>)
    ensures r == ParseSpec(buf)
  {
    hide FromLe16, ParseFrom;
    if |buf| < 9 {
      return Failure(TooShort(9, |buf|));
    }
    if buf[1] != TYPE_CONFIGURATION {
      return Failure(WrongType(TYPE_CONFIGURATION, buf[1]));
    }
    var total := FromLe16(buf[2..4]);
    var end := if |buf| < total then |buf| else total;
    var interfaces: seq<Interface> := [];
    var pos: nat := buf[0];
    if pos == 0 {
      return Failure(ZeroLength(0));
    }
    while pos + 2 <= end
      invariant ParseFrom(buf, pos, end, interfaces) == ParseFrom(buf, buf[0], end, [])
      decreases end - pos
    {
      ParseTurn(buf, pos, end, interfaces);
      var len: nat := buf[pos];
      var kind := buf[pos + 1];
      if len == 0 {
        return Failure(ZeroLength(pos));
      }
      if pos + len > end {
        return Failure(RunsPastEnd(pos, len, end - pos));
      }
      if kind == TYPE_INTERFACE {
        if len < 9 {
          return Failure(TooShort(9, len));
        }
        interfaces := interfaces + [Interface(buf[pos + 2], buf[pos + 3], buf[pos + 5], buf[pos + 6],
                                              buf[pos + 7], buf[pos + 8], [])];
      } else if kind == TYPE_ENDPOINT {
        if len < 7 {
          return Failure(TooShort(7, len));
        }
        var ep := Endpoint(buf[pos + 2], buf[pos + 3] % 4, FromLe16(buf[pos + 4..pos + 6]));
        if interfaces == [] {
          return Failure(EndpointWithoutInterface);
        }
        var last := |interfaces| - 1;
        interfaces := interfaces[last := interfaces[last].(endpoints := interfaces[last].endpoints + [ep])];
      }
      pos := pos + len;
    }
    ParseEnds(buf, pos, end, interfaces);
    r := Success(Config(total, buf[4], buf[5], interfaces));
  }

  lemma ParseEnds(buf: seq<Byte>, pos: nat, end: nat, ifaces: seq<Interface>)
    requires pos + 2 > end && end <= |buf|
    ensures ParseFrom(buf, pos, end, ifaces) == Success(ifaces)
  {
  }

  /** One turn of the loop, in the fields of the buffer. */
  lemma ParseTurn(buf: seq<Byte>, pos: nat, end: nat, ifaces: seq<Interface>)
    requires pos + 2 <= end <= |buf|
    ensures var len: nat := buf[pos]; var kind := buf[pos + 1];
      ParseFrom(buf, pos, end, ifaces) ==
        if len == 0 then Failure(ZeroLength(pos))
        else if pos + len > end then Failure(RunsPastEnd(pos, len, end - pos))
        else if kind == TYPE_INTERFACE then
          if len < 9 then Failure(TooShort(9, len))
          else
            ParseFrom(buf, pos + len, end,
              ifaces + [Interface(buf[pos + 2], buf[pos + 3], buf[pos + 5], buf[pos + 6], buf[pos + 7], buf[pos + 8], [])])
        else if kind == TYPE_ENDPOINT then
          if len < 7 then Failure(TooShort(7, len))
          else if ifaces == [] then Failure(EndpointWithoutInterface)
          else
            var ep := Endpoint(buf[pos + 2], buf[pos + 3] % 4, FromLe16(buf[pos + 4..pos + 6]));
            var last := ifaces[|ifaces| - 1];
            ParseFrom(buf, pos + len, end, ifaces[|ifaces| - 1 := last.(endpoints := last.endpoints + [ep])])
        else ParseFrom(buf, pos + len, end, ifaces)
  {
    hide FromLe16;
    var len: nat := buf[pos];
    if 7 <= len && pos + len <= end {
      SizeField(buf, pos, len);
    }
  }

  lemma SizeField(buf: seq<Byte>, pos: nat, len: nat)
    requires 6 <= len && pos + len <= |buf|
    ensures buf[pos..pos + len][4..6] == buf[pos + 4..pos + 6]
  {
    var d := buf[pos..pos + len];
    assert d[4..6] == [d[4], d[5]] == [buf[pos + 4], buf[pos + 5]] == buf[pos + 4..pos + 6];
  }

  // ----- a configuration as a device lays it out -----

  /** A descriptor that states its own length, long enough for its kind. */
  predicate WellFormed(d: seq<Byte>) {
    |d| >= 2 && d[0] as int == |d|
    && (d[1] == TYPE_INTERFACE ==> |d| >= 9)
    && (d[1] == TYPE_ENDPOINT ==> |d| >= 7)
  }

  function Laid(ds: seq<seq<Byte>>): seq<Byte> {
    if ds == [] then [] else ds[0] + Laid(ds[1..])
  }

  function Items(ds: seq<seq<Byte>>): seq<Item>
    requires forall d <- ds :: WellFormed(d)
  {
    if ds == [] then []
    else
      assert WellFormed(ds[0]);
      [ReadItem(ds[0]).value] + Items(ds[1..])
  }

  lemma {:induction false} ParseFromReadsItems(
    head: seq<Byte>, ds: seq<seq<Byte>>, tail: seq<Byte>, ifaces: seq<Interface>)
    requires forall d <- ds :: WellFormed(d)
    ensures var buf := head + Laid(ds) + tail;
      ParseFrom(buf, |head|, |head| + |Laid(ds)|, ifaces) == AttachAll(ifaces, Items(ds))
    decreases |ds|
  {
    var buf := head + Laid(ds) + tail;
    if ds != [] {
      var d := ds[0];
      assert WellFormed(d);
      var pos := |head|;
      assert buf == (head + d) + Laid(ds[1..]) + tail;
      assert buf[pos..pos + |d|] == d && buf[pos] == d[0];
      var attached := Attach(ifaces, ReadItem(d).value);
      if attached.Success? {
        ParseFromReadsItems(head + d, ds[1..], tail, attached.value);
      }
    }
  }

  /** The header of a configuration: its own length, its type, the total length. */
  predicate IsHeader(head: seq<Byte>, total: nat) {
    |head| >= 9 && head[0] as int == |head| && head[1] == TYPE_CONFIGURATION
    && total < 0x1_0000 && head[2..4] == Le16(total)
  }

  /** Parsing a well-formed configuration gives each interface the endpoints that follow it,
      whatever other descriptors stand between, and whatever bytes follow the whole. */
  lemma ParseGivesOwnedEndpoints(head: seq<Byte>, ds: seq<seq<Byte>>, tail: seq<Byte>)
    requires forall d <- ds :: WellFormed(d)
    requires IsHeader(head, |head| + |Laid(ds)|)
    ensures ParseSpec(head + Laid(ds) + tail) ==
      if StartsWithEndpoint(Items(ds)) then Failure(EndpointWithoutInterface)
      else Success(Config(|head| + |Laid(ds)|, head[4], head[5], Owned(WithoutOthers(Items(ds)))))
  {
    var buf := head + Laid(ds) + tail;
    var total := |head| + |Laid(ds)|;
    assert buf[2..4] == head[2..4];
    Le16RoundTrip(total);
    ParseFromReadsItems(head, ds, tail, []);
    EndpointsGoToNearestInterface(Items(ds));
    EndpointsGoToNearestInterface(WithoutOthers(Items(ds)));
    OthersChangeNothing([], Items(ds));
  }

  // ----- the interface the host opens -----

  datatype MtpInterface = MtpInterface(
    number: Byte, alternate: Byte, class_: Byte, subclass: Byte, protocol: Byte,
    bulkIn: Byte, bulkOut: Byte, interruptIn: Option<Byte>, maxPacketSize: U16)

  /** The first element that satisfies a test, as an index. */
  function FirstIndex<T>(s: seq<T>, test: T -> bool): (r: Option<nat>)
    ensures r.Some? ==> r.value < |s| && test(s[r.value]) && forall j :: 0 <= j < r.value ==> !test(s[j])
    ensures r.None? ==> forall j :: 0 <= j < |s| ==> !test(s[j])
  {
    if s == [] then None
    else if test(s[0]) then Some(0)
    else
      match FirstIndex(s[1..], test)
      case None => None
      case Some(k) => Some(k + 1)
  }

  /** `MtpInterface::from_interface`. */
  function FromInterface(i: Interface): Result<MtpInterface, DescriptorError> {
    var bin := FirstIndex(i.endpoints, (e: Endpoint) => e.IsBulk() && e.IsIn());
    var bout := FirstIndex(i.endpoints, (e: Endpoint) => e.IsBulk() && !e.IsIn());
    if bin.None? || bout.None? then Failure(IncompleteMtpEndpoints(bin.Some?, bout.Some?))
    else
      var interrupt := FirstIndex(i.endpoints, (e: Endpoint) => e.IsInterrupt() && e.IsIn());
      var event := if interrupt.Some? then Some(i.endpoints[interrupt.value].address) else None;
      Success(MtpInterface(i.number, i.alternate, i.class_, i.subclass, i.protocol,
                           i.endpoints[bin.value].address, i.endpoints[bout.value].address,
                           event, i.endpoints[bin.value].maxPacketSize))
  }

  predicate IsSpace(c: char) {
    || '\t' <= c <= '\r' || c == ' '
    || c as int in {0x85, 0xa0, 0x1680, 0x2028, 0x2029, 0x202f, 0x205f, 0x3000}
    || 0x2000 <= c as int <= 0x200a
  }

  function TrimStart(s: string): string {
    if s != [] && IsSpace(s[0]) then TrimStart(s[1..]) else s
  }

  function TrimEnd(s: string): string {
    if s != [] && IsSpace(s[|s| - 1]) then TrimEnd(s[..|s| - 1]) else s
  }

  /** Whether an interface is the vendor one that names itself "MTP". */
  predicate NamedMtp(i: Interface, nameOf: Byte -> Option<string>) {
    i.IsVendorCandidate() && nameOf(i.stringIndex).Some?
    && TrimEnd(TrimStart(nameOf(i.stringIndex).value)) == "MTP"
  }

  /** `MtpInterface::find_with_names`: the still imaging class first, and then the vendor
      interfaces in order, asking the device for a name only when the class is not enough. */
  method FindWithNames(cfg: Config, nameOf: Byte -> Option<string>) returns (r: Result<MtpInterface, DescriptorError>)
    ensures r == match Chosen(cfg, nameOf)
                 case Some(k) => FromInterface(cfg.interfaces[k])
                 case None => Failure(NoMtpInterface)
  {
    var still := FirstIndex(cfg.interfaces, (i: Interface) => i.IsMtp());
    if still.Some? {
      return FromInterface(cfg.interfaces[still.value]);
    }
    for k := 0 to |cfg.interfaces|
      invariant forall j :: 0 <= j < k ==> !NamedMtp(cfg.interfaces[j], nameOf)
    {
      var i := cfg.interfaces[k];
      if i.IsVendorCandidate() {
        match nameOf(i.stringIndex) {
          case None =>
          case Some(name) =>
            if TrimEnd(TrimStart(name)) == "MTP" {
              FirstIndexIs(cfg.interfaces, (i: Interface) => NamedMtp(i, nameOf), k);
              return FromInterface(i);
            }
        }
      }
    }
    r := Failure(NoMtpInterface);
  }

  function Chosen(cfg: Config, nameOf: Byte -> Option<string>): (r: Option<nat>)
    ensures r.Some? ==> r.value < |cfg.interfaces|
  {
    var still := FirstIndex(cfg.interfaces, (i: Interface) => i.IsMtp());
    if still.Some? then still else FirstIndex(cfg.interfaces, (i: Interface) => NamedMtp(i, nameOf))
  }

  lemma FirstIndexIs<T>(s: seq<T>, test: T -> bool, k: nat)
    requires k < |s| && test(s[k]) && forall j :: 0 <= j < k ==> !test(s[j])
    ensures FirstIndex(s, test) == Some(k)
  {
    var r := FirstIndex(s, test);
    assert r.Some?;
    assert k <= r.value <= k;
  }

  /** Both bulk endpoints come from the one interface the search order names, each the first
      of its direction there; and the search fails exactly when that interface lacks one. */
  lemma EndpointsShareOneInterface(cfg: Config, nameOf: Byte -> Option<string>, k: nat)
    requires Chosen(cfg, nameOf) == Some(k)
    ensures var i := cfg.interfaces[k]; var r := FromInterface(i);
      && (i.IsMtp() || (NamedMtp(i, nameOf) && forall j <- cfg.interfaces :: !j.IsMtp()))
      && (r.Success? <==> (exists e <- i.endpoints :: e.IsBulk() && e.IsIn())
                          && (exists e <- i.endpoints :: e.IsBulk() && !e.IsIn()))
      && (r.Success? ==>
            && (exists m: nat | m < |i.endpoints| :: IsFirst(i.endpoints, m, (e: Endpoint) => e.IsBulk() && e.IsIn())
                  && i.endpoints[m].address == r.value.bulkIn
                  && i.endpoints[m].maxPacketSize == r.value.maxPacketSize)
            && (exists m: nat | m < |i.endpoints| :: IsFirst(i.endpoints, m, (e: Endpoint) => e.IsBulk() && !e.IsIn())
                  && i.endpoints[m].address == r.value.bulkOut))
  {
    var i := cfg.interfaces[k];
    var bin := FirstIndex(i.endpoints, (e: Endpoint) => e.IsBulk() && e.IsIn());
    var bout := FirstIndex(i.endpoints, (e: Endpoint) => e.IsBulk() && !e.IsIn());
    if bin.Some? {
      assert i.endpoints[bin.value] in i.endpoints;
      assert IsFirst(i.endpoints, bin.value, (e: Endpoint) => e.IsBulk() && e.IsIn());
    }
    if bout.Some? {
      assert i.endpoints[bout.value] in i.endpoints;
      assert IsFirst(i.endpoints, bout.value, (e: Endpoint) => e.IsBulk() && !e.IsIn());
    }
  }

  predicate IsFirst<T>(s: seq<T>, m: nat, test: T -> bool)
    requires m < |s|
  {
    test(s[m]) && forall j :: 0 <= j < m ==> !test(s[j])
  }
}
