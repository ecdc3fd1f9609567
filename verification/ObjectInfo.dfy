/** The `ObjectInfo` dataset: what the host announces before it sends a file, and what
    a device reports about one object. `crates/ptp-proto/src/lib.rs`, lines 617 to 760. */
module ObjectInfo {
  import opened Bytes
  import opened Wrappers
  import opened Container
  import opened Reader

  const ASSOCIATION: U16 := 0x3001
  const UNDEFINED: U16 := 0x3000

  datatype Info = Info(
    storage: U32, format: U16, protection: U16, size: U32,
    width: U32, height: U32, parent: U32, association: U16,
    filename: Name, captureDate: Name, modificationDate: Name)
  {
    predicate IsFolder() {
      format == ASSOCIATION
    }
  }

  // The dataset is one fixed block of 52 bytes, and then the strings. The block is
  // written in four groups, in the order of the standard.

  function IdentityBytes(storage: U32, format: U16, protection: U16, size: U32): (b: seq<Byte>)
    ensures |b| == 12
  {
    Le32(storage) + Le16(format) + Le16(protection) + Le32(size)
  }

  function ThumbBytes(format: U16, size: U32, width: U32, height: U32): (b: seq<Byte>)
    ensures |b| == 14
  {
    Le16(format) + Le32(size) + Le32(width) + Le32(height)
  }

  function ImageBytes(width: U32, height: U32, depth: U32): (b: seq<Byte>)
    ensures |b| == 12
  {
    Le32(width) + Le32(height) + Le32(depth)
  }

  function PlaceBytes(parent: U32, association: U16, desc: U32, sequence: U32): (b: seq<Byte>)
    ensures |b| == 14
  {
    Le32(parent) + Le16(association) + Le32(desc) + Le32(sequence)
  }

  datatype Identity = Identity(storage: U32, format: U16, protection: U16, size: U32)
  datatype Image = Image(width: U32, height: U32, depth: U32)
  datatype Place = Place(parent: U32, association: U16)

  function GetIdentity(b: seq<Byte>): Result<Got<Identity>, ParseError> {
    var storage :- GetU32(b, "storage_id");
    var format :- GetU16(storage.rest, "object_format");
    var protection :- GetU16(format.rest, "protection_status");
    var size :- GetU32(protection.rest, "compressed_size");
    Success(Got(Identity(storage.value, format.value, protection.value, size.value), size.rest))
  }

  /** The thumbnail fields only move the cursor. */
  function SkipThumb(b: seq<Byte>): Result<Got<()>, ParseError> {
    var format :- GetU16(b, "thumb_format");
    var size :- GetU32(format.rest, "thumb_compressed_size");
    var width :- GetU32(size.rest, "thumb_pix_width");
    var height :- GetU32(width.rest, "thumb_pix_height");
    Success(Got((), height.rest))
  }

  function GetImage(b: seq<Byte>): Result<Got<Image>, ParseError> {
    var width :- GetU32(b, "image_pix_width");
    var height :- GetU32(width.rest, "image_pix_height");
    var depth :- GetU32(height.rest, "image_bit_depth");
    Success(Got(Image(width.value, height.value, depth.value), depth.rest))
  }

  function GetPlace(b: seq<Byte>): Result<Got<Place>, ParseError> {
    var parent :- GetU32(b, "parent_object");
    var association :- GetU16(parent.rest, "association_type");
    var desc :- GetU32(association.rest, "association_desc");
    var sequence :- GetU32(desc.rest, "sequence_number");
    Success(Got(Place(parent.value, association.value), sequence.rest))
  }

  function StringOrEmpty(b: seq<Byte>, field: string): Name {
    match GetString(b, field)
    case Success(g) => g.value
    case Failure(_) => []
  }

  function ParseInfo(b: seq<Byte>): Result<Info, ParseError> {
    var id :- GetIdentity(b);
    var thumb :- SkipThumb(id.rest);
    var image :- GetImage(thumb.rest);
    var place :- GetPlace(image.rest);
    var name :- GetString(place.rest, "filename");
    var capture := StringOrEmpty(name.rest, "capture_date");
    var modified := StringOrEmpty(AfterString(name.rest), "modification_date");
    Success(Info(id.value.storage, id.value.format, id.value.protection, id.value.size,
                 image.value.width, image.value.height, place.value.parent,
                 place.value.association, name.value, capture, modified))
  }

  /** `ObjectInfo::parse`, field by field over one cursor. */
  method Parse(payload: seq<Byte>) returns (r: Result<Info, ParseError>)
    ensures r == ParseInfo(payload)
  {
    var c := new Cursor(payload);
    var storage :- c.ReadU32("storage_id");
    var format :- c.ReadU16("object_format");
    var protection :- c.ReadU16("protection_status");
    var size :- c.ReadU32("compressed_size");
    var _ :- c.ReadU16("thumb_format");
    var _ :- c.ReadU32("thumb_compressed_size");
    var _ :- c.ReadU32("thumb_pix_width");
    var _ :- c.ReadU32("thumb_pix_height");
    var width :- c.ReadU32("image_pix_width");
    var height :- c.ReadU32("image_pix_height");
    var _ :- c.ReadU32("image_bit_depth");
    var parent :- c.ReadU32("parent_object");
    var association :- c.ReadU16("association_type");
    var _ :- c.ReadU32("association_desc");
    var _ :- c.ReadU32("sequence_number");
    var filename :- c.ReadString("filename");
    var capture := c.ReadString("capture_date");
    var modified := c.ReadString("modification_date");
    r := Success(Info(storage, format, protection, size, width, height, parent, association,
                      filename,
                      if capture.Success? then capture.value else [],
                      if modified.Success? then modified.value else []));
  }

  function DatasetBytes(storage: U32, parent: U32, name: Name, size: U32, isFolder: bool): seq<Byte> {
    IdentityBytes(storage, if isFolder then ASSOCIATION else UNDEFINED, 0, size)
    + (ThumbBytes(0, 0, 0, 0)
       + (ImageBytes(0, 0, 0)
          + (PlaceBytes(parent, if isFolder then 1 else 0, 0, 0)
             + (StringBytes(name) + [0, 0, 0]))))
  }

  /** `ObjectInfo::build_for_send`. */
  method BuildForSend(storage: U32, parent: U32, name: Name, size: U32, isFolder: bool)
    returns (out: seq<Byte>)
    ensures out == DatasetBytes(storage, parent, name, size, isFolder)
  {
    out := Le32(storage);
    var format: U16 := if isFolder then ASSOCIATION else UNDEFINED;
    out := out + Le16(format);
    out := out + Le16(0);
    out := out + Le32(size);
    ghost var identity := out;

    var thumb := Le16(0);
    thumb := thumb + Le32(0);
    thumb := thumb + Le32(0);
    thumb := thumb + Le32(0);
    out := out + thumb;

    var image := Le32(0);
    image := image + Le32(0);
    image := image + Le32(0);
    out := out + image;

    var place := Le32(parent);
    var association: U16 := if isFolder then 1 else 0;
    place := place + Le16(association);
    place := place + Le32(0);
    place := place + Le32(0);
    out := out + place;
    Regroup(identity, thumb, image, place);

    ghost var fixed := out;
    out := PushString(out, name);
    out := PushString(out, []);
    out := PushString(out, []);
    out := PushString(out, []);
    assert out == fixed + (StringBytes(name) + [0, 0, 0]);
    Reassociate(identity, thumb, image, place, StringBytes(name) + [0, 0, 0]);
  }

  lemma Regroup(a: seq<Byte>, b: seq<Byte>, c: seq<Byte>, d: seq<Byte>)
    ensures ((a + b) + c) + d == a + (b + (c + d))
  {
  }

  lemma Reassociate(a: seq<Byte>, b: seq<Byte>, c: seq<Byte>, d: seq<Byte>, e: seq<Byte>)
    ensures (((a + b) + c) + d) + e == a + (b + (c + (d + e)))
  {
    assert (c + d) + e == c + (d + e);
    assert ((a + b) + (c + d)) + e == (a + b) + ((c + d) + e);
  }

  // ----- the device reads what the host announced -----

  lemma IdentityReads(id: Identity, tail: seq<Byte>)
    ensures GetIdentity(IdentityBytes(id.storage, id.format, id.protection, id.size) + tail)
         == Success(Got(id, tail))
  {
    hide GetBytes, FromLe16, FromLe32;
    var r3 := Le32(id.size) + tail;
    var r2 := Le16(id.protection) + r3;
    var r1 := Le16(id.format) + r2;
    assert IdentityBytes(id.storage, id.format, id.protection, id.size) + tail == Le32(id.storage) + r1;
    U32Reads(id.storage, r1, "storage_id");
    U16Reads(id.format, r2, "object_format");
    U16Reads(id.protection, r3, "protection_status");
    U32Reads(id.size, tail, "compressed_size");
  }

  lemma ThumbSkips(format: U16, size: U32, width: U32, height: U32, tail: seq<Byte>)
    ensures SkipThumb(ThumbBytes(format, size, width, height) + tail) == Success(Got((), tail))
  {
    hide GetBytes, FromLe16, FromLe32;
    var r3 := Le32(height) + tail;
    var r2 := Le32(width) + r3;
    var r1 := Le32(size) + r2;
    assert ThumbBytes(format, size, width, height) + tail == Le16(format) + r1;
    U16Reads(format, r1, "thumb_format");
    U32Reads(size, r2, "thumb_compressed_size");
    U32Reads(width, r3, "thumb_pix_width");
    U32Reads(height, tail, "thumb_pix_height");
  }

  lemma ImageReads(image: Image, tail: seq<Byte>)
    ensures GetImage(ImageBytes(image.width, image.height, image.depth) + tail) == Success(Got(image, tail))
  {
    hide GetBytes, FromLe16, FromLe32;
    var r2 := Le32(image.depth) + tail;
    var r1 := Le32(image.height) + r2;
    assert ImageBytes(image.width, image.height, image.depth) + tail == Le32(image.width) + r1;
    U32Reads(image.width, r1, "image_pix_width");
    U32Reads(image.height, r2, "image_pix_height");
    U32Reads(image.depth, tail, "image_bit_depth");
  }

  lemma PlaceReads(place: Place, desc: U32, sequence: U32, tail: seq<Byte>)
    ensures GetPlace(PlaceBytes(place.parent, place.association, desc, sequence) + tail)
         == Success(Got(place, tail))
  {
    hide GetBytes, FromLe16, FromLe32;
    var r3 := Le32(sequence) + tail;
    var r2 := Le32(desc) + r3;
    var r1 := Le16(place.association) + r2;
    assert PlaceBytes(place.parent, place.association, desc, sequence) + tail == Le32(place.parent) + r1;
    U32Reads(place.parent, r1, "parent_object");
    U16Reads(place.association, r2, "association_type");
    U32Reads(desc, r3, "association_desc");
    U32Reads(sequence, tail, "sequence_number");
  }

  /** The announced dataset reads back: place, size and kind exactly, and the name as the
      longest part a PTP string carries. Bytes after the dataset change nothing. */
  lemma ParseUndoesBuild(storage: U32, parent: U32, name: Name, size: U32, isFolder: bool, tail: seq<Byte>)
    requires WellFormed(name)
    ensures var r := ParseInfo(DatasetBytes(storage, parent, name, size, isFolder) + tail);
      && r.Success?
      && r.value.storage == storage && r.value.parent == parent && r.value.size == size
      && r.value.IsFolder() == isFolder && r.value.format == (if isFolder then ASSOCIATION else UNDEFINED)
      && r.value.filename == Cut(name)
      && r.value.captureDate == [] && r.value.modificationDate == []
  {
    var id := Identity(storage, if isFolder then ASSOCIATION else UNDEFINED, 0, size);
    var place := Place(parent, if isFolder then 1 else 0);
    var r4 := StringBytes(name) + [0, 0, 0] + tail;
    var r3 := PlaceBytes(parent, place.association, 0, 0) + r4;
    var r2 := ImageBytes(0, 0, 0) + r3;
    var r1 := ThumbBytes(0, 0, 0, 0) + r2;
    PushTailIn(IdentityBytes(storage, id.format, 0, size), ThumbBytes(0, 0, 0, 0), ImageBytes(0, 0, 0),
               PlaceBytes(parent, place.association, 0, 0), StringBytes(name) + [0, 0, 0], tail);
    IdentityReads(id, r1);
    ThumbSkips(0, 0, 0, 0, r2);
    ImageReads(Image(0, 0, 0), r3);
    PlaceReads(place, 0, 0, r4);
    StringsRead(name, tail);
  }

  lemma PushTailIn(a: seq<Byte>, b: seq<Byte>, c: seq<Byte>, d: seq<Byte>, e: seq<Byte>, tail: seq<Byte>)
    ensures (a + (b + (c + (d + e)))) + tail == a + (b + (c + (d + (e + tail))))
  {
    assert (d + e) + tail == d + (e + tail);
    assert (c + (d + e)) + tail == c + ((d + e) + tail);
    assert (b + (c + (d + e))) + tail == b + ((c + (d + e)) + tail);
  }

  lemma StringsRead(name: Name, tail: seq<Byte>)
    requires WellFormed(name)
    ensures var b := StringBytes(name) + [0, 0, 0] + tail; var rest := [0, 0, 0] + tail;
      && GetString(b, "filename") == Success(Got(Cut(name), rest))
      && StringOrEmpty(rest, "capture_date") == []
      && StringOrEmpty(AfterString(rest), "modification_date") == []
  {
    var rest := [0, 0, 0] + tail;
    assert StringBytes(name) + [0, 0, 0] + tail == StringBytes(name) + rest;
    StringRoundTrip(name, rest, "filename");
  }
}
