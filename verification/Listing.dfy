/** The two ways to list a folder: three property lists, or one request for each object.
    `crates/mtpfs/src/backend.rs`, lines 302 to 315 and 573 to 713. */
module Listing {
  import opened Bytes
  import opened Wrappers
  import opened Reader
  import opened PropList
  import opened Records
  import Container
  import ObjectInfo

  const GET_OBJECT_HANDLES: U16 := 0x1007
  const GET_OBJECT_INFO: U16 := 0x1008
  const GET_OBJECT_PROP_LIST: U16 := 0x9805
  const ROOT: U32 := 0
  const ROOT_ONLY: U32 := 0xffff_ffff

  datatype ListEntry = ListEntry(handle: U32, parent: U32, name: Name, isDir: bool, size: U64)

  datatype ListError = Parse(source: Container.ParseError) | BadListing(handle: U32) | Request(code: U16)

  /** How the device answers one request that carries no data. */
  type Ask = (U16, seq<U32>) -> Result<seq<Byte>, ListError>

  // ----- the fast way, as a function of the answers -----

  function PropAnswer(ask: Ask, folder: U32, code: U16): Result<seq<PropEntry>, ListError> {
    var data :- ask(GET_OBJECT_PROP_LIST, [folder, 0, code, 0, 1]);
    match ParsePropList(data)
    case Success(es) => Success(es)
    case Failure(e) => Failure(Parse(e))
  }

  /** `drop_the_folder`. */
  function DropTheFolder(records: seq<PropRecord>, folder: U32): seq<PropRecord> {
    if records == [] then []
    else if records[0].handle == folder then DropTheFolder(records[1..], folder)
    else [records[0]] + DropTheFolder(records[1..], folder)
  }

  function EntriesFrom(records: seq<PropRecord>, parent: U32): Result<seq<ListEntry>, ListError> {
    if records == [] then Success([])
    else
      var r := records[0];
      if r.name == [] then Failure(BadListing(r.handle))
      else
        var rest :- EntriesFrom(records[1..], parent);
        Success([ListEntry(r.handle, parent, r.name, r.IsFolder(), r.size)] + rest)
  }

  function Folded(es: seq<PropEntry>, folder: U32): seq<PropRecord> {
    DropTheFolder(RecordsOf(es, FirstSeen(es)), folder)
  }

  function FastList(ask: Ask, parent: U32): Result<seq<ListEntry>, ListError> {
    var names :- PropAnswer(ask, parent, OBJECT_FILE_NAME);
    var sizes :- PropAnswer(ask, parent, OBJECT_SIZE);
    var formats :- PropAnswer(ask, parent, OBJECT_FORMAT);
    EntriesFrom(Folded(names + sizes + formats, parent), parent)
  }

  // ----- the older way -----

  function SlowEntries(ask: Ask, handles: seq<U32>, parent: U32): Result<seq<ListEntry>, ListError> {
    if handles == [] then Success([])
    else
      var raw :- ask(GET_OBJECT_INFO, [handles[0]]);
      var rest :- SlowEntries(ask, handles[1..], parent);
      match ObjectInfo.ParseInfo(raw)
      case Failure(_) => Success(rest)
      case Success(info) => Success([ListEntry(handles[0], parent, info.filename, info.IsFolder(), info.size)] + rest)
  }

  /** The handles of an answer: what follows its count, in whole words. */
  function HandlesIn(data: seq<Byte>): seq<U32> {
    if |data| < 4 then [] else Container.Parameters(data[4..])
  }

  function SlowList(ask: Ask, storage: U32, parent: U32): Result<seq<ListEntry>, ListError> {
    var data :- ask(GET_OBJECT_HANDLES, [storage, 0, if parent == ROOT then ROOT_ONLY else parent]);
    SlowEntries(ask, HandlesIn(data), parent)
  }

  // ----- the session's listing -----

  class Lister {
    const ask: Ask
    const storage: U32
    var fastList: bool

    constructor (ask: Ask, storage: U32, fastList: bool)
      ensures this.ask == ask && this.storage == storage && this.fastList == fastList
    {
      this.ask := ask;
      this.storage := storage;
      this.fastList := fastList;
    }

    /** `list`: the fast way while it works, and the older way from its first fault on. */
    method List(parent: U32) returns (r: Result<seq<ListEntry>, ListError>)
      modifies this
      ensures r == if old(fastList) && FastList(ask, parent).Success? then FastList(ask, parent)
                   else SlowList(ask, storage, parent)
      ensures fastList == (old(fastList) && FastList(ask, parent).Success?)
    {
      if fastList {
        var fast := ListByProperties(parent);
        if fast.Success? {
          return fast;
        }
        fastList := false;
      }
      r := ListOneAtATime(parent);
    }

    method ListByProperties(parent: U32) returns (r: Result<seq<ListEntry>, ListError>)
      ensures r == FastList(ask, parent)
    {
      hide PropAnswer, RecordsOf, FirstSeen, EntriesFrom, DropTheFolder;
      var names :- PropAnswer(ask, parent, OBJECT_FILE_NAME);
      var sizes :- PropAnswer(ask, parent, OBJECT_SIZE);
      var formats :- PropAnswer(ask, parent, OBJECT_FORMAT);
      var raw := Fold(names + sizes + formats);
      var records := DropTheFolder(raw, parent);
      r := NamedEntries(records, parent);
    }

    static method NamedEntries(records: seq<PropRecord>, parent: U32) returns (r: Result<seq<ListEntry>, ListError>)
      ensures r == EntriesFrom(records, parent)
    {
      var out: seq<ListEntry> := [];
      ghost var goal := EntriesFrom(records, parent);
      assert goal.Success? ==> [] + goal.value == goal.value;
      for i := 0 to |records|
        invariant match EntriesFrom(records[i..], parent)
                  case Success(es) => goal == Success(out + es)
                  case Failure(e) => goal == Failure(e)
      {
        var rec := records[i];
        assert records[i..][1..] == records[i + 1..];
        if rec.name == [] {
          return Failure(BadListing(rec.handle));
        }
        ghost var rest := EntriesFrom(records[i + 1..], parent);
        var e := ListEntry(rec.handle, parent, rec.name, rec.IsFolder(), rec.size);
        assert rest.Success? ==> out + ([e] + rest.value) == (out + [e]) + rest.value;
        out := out + [e];
      }
      assert out + [] == out;
      r := Success(out);
    }

    method ListOneAtATime(parent: U32) returns (r: Result<seq<ListEntry>, ListError>)
      ensures r == SlowList(ask, storage, parent)
    {
      hide ObjectInfo.ParseInfo, HandlesIn;
      var data :- ask(GET_OBJECT_HANDLES, [storage, 0, if parent == ROOT then ROOT_ONLY else parent]);
      var handles := HandlesIn(data);
      var out: seq<ListEntry> := [];
      ghost var goal := SlowEntries(ask, handles, parent);
      assert goal.Success? ==> [] + goal.value == goal.value;
      for i := 0 to |handles|
        invariant match SlowEntries(ask, handles[i..], parent)
                  case Success(es) => goal == Success(out + es)
                  case Failure(e) => goal == Failure(e)
      {
        assert handles[i..][1..] == handles[i + 1..];
        var raw :- ask(GET_OBJECT_INFO, [handles[i]]);
        var info := ObjectInfo.ParseInfo(raw);
        if info.Success? {
          ghost var rest := SlowEntries(ask, handles[i + 1..], parent);
          var e := ListEntry(handles[i], parent, info.value.filename, info.value.IsFolder(), info.value.size);
          assert rest.Success? ==> out + ([e] + rest.value) == (out + [e]) + rest.value;
          out := out + [e];
        }
      }
      assert out + [] == out;
      r := Success(out);
    }
  }

  // ----- one folder, described two ways -----

  /** What the device holds in the folder, in its own order. */
  datatype Child = Child(handle: U32, name: Name, size: U64, format: U16)

  function HandlesOf(cs: seq<Child>): (hs: seq<U32>)
    ensures |hs| == |cs| && forall i :: 0 <= i < |cs| ==> hs[i] == cs[i].handle
  {
    seq(|cs|, i requires 0 <= i < |cs| => cs[i].handle)
  }

  function PropOf(c: Child, code: U16): PropEntry {
    PropEntry(c.handle, code,
              if code == OBJECT_FILE_NAME then Text(c.name)
              else if code == OBJECT_SIZE then Number(c.size)
              else Number(c.format))
  }

  function PropsOf(cs: seq<Child>, code: U16): (es: seq<PropEntry>)
    ensures |es| == |cs| && forall i :: 0 <= i < |cs| ==> es[i] == PropOf(cs[i], code)
  {
    seq(|cs|, i requires 0 <= i < |cs| => PropOf(cs[i], code))
  }

  /** The entries that are not about the folder itself. */
  function NotAbout(es: seq<PropEntry>, folder: U32): seq<PropEntry> {
    if es == [] then []
    else
      var before := NotAbout(es[..|es| - 1], folder);
      if es[|es| - 1].handle == folder then before else before + [es[|es| - 1]]
  }

  /** An object larger than the 32 bit size field reports the largest value of the field. */
  function FieldSize(size: U64): U32 {
    if size <= 0xffff_ffff then size else 0xffff_ffff
  }

  /** Each child has its own handle, and none is the folder. */
  ghost predicate Separate(cs: seq<Child>, folder: U32) {
    && (forall c <- cs :: c.handle != folder)
    && forall i, j :: 0 <= i < j < |cs| ==> cs[i].handle != cs[j].handle
  }

  /** The three property lists describe the children; the folder may stand anywhere in them. */
  ghost predicate DescribesFast(ask: Ask, parent: U32, cs: seq<Child>) {
    forall code <- {OBJECT_FILE_NAME, OBJECT_SIZE, OBJECT_FORMAT} ::
      && PropAnswer(ask, parent, code).Success?
      && NotAbout(PropAnswer(ask, parent, code).value, parent) == PropsOf(cs, code)
  }

  ghost predicate InfoMatches(ask: Ask, c: Child) {
    && ask(GET_OBJECT_INFO, [c.handle]).Success?
    && var info := ObjectInfo.ParseInfo(ask(GET_OBJECT_INFO, [c.handle]).value);
       && info.Success? && info.value.filename == c.name && info.value.format == c.format
       && info.value.size == FieldSize(c.size)
  }

  /** The handle list and the object infos describe the same children. */
  ghost predicate DescribesSlow(ask: Ask, storage: U32, parent: U32, cs: seq<Child>) {
    var r := ask(GET_OBJECT_HANDLES, [storage, 0, if parent == ROOT then ROOT_ONLY else parent]);
    && r.Success? && HandlesIn(r.value) == HandlesOf(cs)
    && forall c <- cs :: InfoMatches(ask, c)
  }

  function FastEntry(c: Child, parent: U32): ListEntry {
    ListEntry(c.handle, parent, c.name, c.format == ObjectInfo.ASSOCIATION, c.size)
  }

  function SlowEntry(c: Child, parent: U32): ListEntry {
    ListEntry(c.handle, parent, c.name, c.format == ObjectInfo.ASSOCIATION, FieldSize(c.size))
  }

  function FastEntries(cs: seq<Child>, parent: U32): (es: seq<ListEntry>)
    ensures |es| == |cs| && forall i :: 0 <= i < |cs| ==> es[i] == FastEntry(cs[i], parent)
  {
    seq(|cs|, i requires 0 <= i < |cs| => FastEntry(cs[i], parent))
  }

  function SlowEntriesOf(cs: seq<Child>, parent: U32): (es: seq<ListEntry>)
    ensures |es| == |cs| && forall i :: 0 <= i < |cs| ==> es[i] == SlowEntry(cs[i], parent)
  {
    seq(|cs|, i requires 0 <= i < |cs| => SlowEntry(cs[i], parent))
  }

  // ----- the folder itself drops out of the fold -----

  function Without(hs: seq<U32>, folder: U32): seq<U32> {
    if hs == [] then []
    else if hs[0] == folder then Without(hs[1..], folder)
    else [hs[0]] + Without(hs[1..], folder)
  }

  lemma {:induction false} WithoutSnoc(hs: seq<U32>, h: U32, folder: U32)
    ensures Without(hs + [h], folder) == if h == folder then Without(hs, folder) else Without(hs, folder) + [h]
  {
    if hs == [] {
      assert Without([h], folder) == if h == folder then [] else [h] + Without([], folder);
    } else {
      WithoutSnoc(hs[1..], h, folder);
      assert (hs + [h])[1..] == hs[1..] + [h];
    }
  }

  lemma {:induction false} WithoutKeepsRest(hs: seq<U32>, folder: U32)
    ensures forall h :: h in Without(hs, folder) <==> h in hs && h != folder
  {
    if hs != [] {
      WithoutKeepsRest(hs[1..], folder);
    }
  }

  lemma {:induction false} FirstSeenNotAbout(es: seq<PropEntry>, folder: U32)
    ensures FirstSeen(NotAbout(es, folder)) == Without(FirstSeen(es), folder)
  {
    if es != [] {
      var last := es[|es| - 1];
      var before := es[..|es| - 1];
      FirstSeenNotAbout(before, folder);
      WithoutSnoc(FirstSeen(before), last.handle, folder);
      WithoutKeepsRest(FirstSeen(before), folder);
      var kept := NotAbout(before, folder);
      assert (kept + [last])[..|kept|] == kept;
    }
  }

  lemma {:induction false} RecordNotAbout(es: seq<PropEntry>, folder: U32, h: U32)
    requires h != folder
    ensures RecordOf(NotAbout(es, folder), h) == RecordOf(es, h)
  {
    if es != [] {
      var before := es[..|es| - 1];
      RecordNotAbout(before, folder, h);
      var kept := NotAbout(before, folder);
      assert (kept + [es[|es| - 1]])[..|kept|] == kept;
    }
  }

  lemma RecordsHead(es: seq<PropEntry>, hs: seq<U32>)
    requires hs != []
    ensures RecordsOf(es, hs) == [RecordOf(es, hs[0])] + RecordsOf(es, hs[1..])
  {
    hide RecordOf;
  }

  lemma {:induction false} DropKeepsOthers(es: seq<PropEntry>, hs: seq<U32>, folder: U32)
    ensures DropTheFolder(RecordsOf(es, hs), folder) == RecordsOf(NotAbout(es, folder), Without(hs, folder))
  {
    hide RecordOf, RecordsOf, NotAbout;
    if hs != [] {
      DropKeepsOthers(es, hs[1..], folder);
      RecordKeepsHandle(es, hs[0]);
      RecordsHead(es, hs);
      if hs[0] != folder {
        RecordNotAbout(es, folder, hs[0]);
        var kept := Without(hs, folder);
        assert kept[0] == hs[0] && kept[1..] == Without(hs[1..], folder);
        RecordsHead(NotAbout(es, folder), kept);
      }
    }
  }

  lemma FoldedWithoutFolder(es: seq<PropEntry>, folder: U32)
    ensures Folded(es, folder) == RecordsOf(NotAbout(es, folder), FirstSeen(NotAbout(es, folder)))
  {
    DropKeepsOthers(es, FirstSeen(es), folder);
    FirstSeenNotAbout(es, folder);
  }

  lemma {:induction false} NotAboutAppend(a: seq<PropEntry>, b: seq<PropEntry>, folder: U32)
    ensures NotAbout(a + b, folder) == NotAbout(a, folder) + NotAbout(b, folder)
  {
    if b == [] {
      assert a + b == a;
    } else {
      NotAboutAppend(a, b[..|b| - 1], folder);
      assert (a + b)[..|a + b| - 1] == a + b[..|b| - 1];
    }
  }

  // ----- what is left folds to the children -----

  lemma {:induction false} FirstSeenOfProps(cs: seq<Child>, code: U16, folder: U32)
    requires Separate(cs, folder)
    ensures FirstSeen(PropsOf(cs, code)) == HandlesOf(cs)
  {
    if cs != [] {
      var n := |cs| - 1;
      FirstSeenOfProps(cs[..n], code, folder);
      assert PropsOf(cs, code)[..n] == PropsOf(cs[..n], code);
      assert HandlesOf(cs) == HandlesOf(cs[..n]) + [cs[n].handle];
    }
  }

  lemma {:induction false} FirstSeenAgain(a: seq<PropEntry>, b: seq<PropEntry>)
    requires forall e <- b :: e.handle in FirstSeen(a)
    ensures FirstSeen(a + b) == FirstSeen(a)
  {
    if b == [] {
      assert a + b == a;
    } else {
      FirstSeenAgain(a, b[..|b| - 1]);
      assert (a + b)[..|a + b| - 1] == a + b[..|b| - 1];
      assert b[|b| - 1] in b;
    }
  }

  /** The three lists one after the other, as the fold reads them. */
  function AllProps(cs: seq<Child>): seq<PropEntry> {
    PropsOf(cs, OBJECT_FILE_NAME) + PropsOf(cs, OBJECT_SIZE) + PropsOf(cs, OBJECT_FORMAT)
  }

  lemma AllPropsAt(cs: seq<Child>)
    ensures var n := |cs|; var es := AllProps(cs);
      && |es| == 3 * n
      && (forall j :: 0 <= j < n ==> es[j] == PropOf(cs[j], OBJECT_FILE_NAME))
      && (forall j :: n <= j < 2 * n ==> es[j] == PropOf(cs[j - n], OBJECT_SIZE))
      && (forall j :: 2 * n <= j < 3 * n ==> es[j] == PropOf(cs[j - 2 * n], OBJECT_FORMAT))
  {
  }

  lemma ChildWritesOnce(cs: seq<Child>, i: nat, folder: U32, code: U16, k: nat)
    requires Separate(cs, folder) && i < |cs|
    requires (k == 0 && code == OBJECT_FILE_NAME) || (k == 1 && code == OBJECT_SIZE) || (k == 2 && code == OBJECT_FORMAT)
    ensures var at := k * |cs| + i; var es := AllProps(cs);
      && at < |es| && es[at] == PropOf(cs[i], code) && Writes(es[at], cs[i].handle, code)
      && forall j :: at < j < |es| ==> !Writes(es[j], cs[i].handle, code)
  {
    AllPropsAt(cs);
    hide AllProps, PropsOf;
  }

  /** A record that says what the device holds. */
  predicate Matches(r: PropRecord, c: Child) {
    r.handle == c.handle && r.name == c.name && r.size == c.size && r.format == c.format
  }

  lemma RecordOfChild(cs: seq<Child>, i: nat, folder: U32)
    requires Separate(cs, folder) && i < |cs|
    ensures Matches(RecordOf(AllProps(cs), cs[i].handle), cs[i])
  {
    hide RecordOf, AllProps, Writes, Separate;
    var n := |cs|;
    var h := cs[i].handle;
    ChildWritesOnce(cs, i, folder, OBJECT_FILE_NAME, 0);
    LastWriteWins(AllProps(cs), h, OBJECT_FILE_NAME, i);
    ChildWritesOnce(cs, i, folder, OBJECT_SIZE, 1);
    LastWriteWins(AllProps(cs), h, OBJECT_SIZE, n + i);
    ChildWritesOnce(cs, i, folder, OBJECT_FORMAT, 2);
    LastWriteWins(AllProps(cs), h, OBJECT_FORMAT, 2 * n + i);
    RecordKeepsHandle(AllProps(cs), h);
  }

  /** The three lists fold to one record for each child, in the device's order. */
  lemma FoldGivesChildren(ask: Ask, parent: U32, cs: seq<Child>)
    requires Separate(cs, parent) && DescribesFast(ask, parent, cs)
    ensures var es := PropAnswer(ask, parent, OBJECT_FILE_NAME).value + PropAnswer(ask, parent, OBJECT_SIZE).value
                      + PropAnswer(ask, parent, OBJECT_FORMAT).value;
      var rs := Folded(es, parent);
      |rs| == |cs| && forall i :: 0 <= i < |cs| ==> Matches(rs[i], cs[i])
  {
    var a, b, c := PropAnswer(ask, parent, OBJECT_FILE_NAME).value, PropAnswer(ask, parent, OBJECT_SIZE).value,
                   PropAnswer(ask, parent, OBJECT_FORMAT).value;
    hide PropAnswer, RecordOf, FirstSeen, NotAbout;
    NotAboutAppend(a + b, c, parent);
    NotAboutAppend(a, b, parent);
    var names, sizes, formats := PropsOf(cs, OBJECT_FILE_NAME), PropsOf(cs, OBJECT_SIZE), PropsOf(cs, OBJECT_FORMAT);
    assert NotAbout(a + b + c, parent) == names + sizes + formats;
    FoldedWithoutFolder(a + b + c, parent);
    FirstSeenOfProps(cs, OBJECT_FILE_NAME, parent);
    HandlesCover(cs, OBJECT_SIZE);
    HandlesCover(cs, OBJECT_FORMAT);
    FirstSeenAgain(names, sizes);
    FirstSeenAgain(names + sizes, formats);
    forall i | 0 <= i < |cs|
      ensures Matches(RecordOf(AllProps(cs), cs[i].handle), cs[i])
    {
      RecordOfChild(cs, i, parent);
    }
  }

  lemma HandlesCover(cs: seq<Child>, code: U16)
    ensures forall e <- PropsOf(cs, code) :: e.handle in HandlesOf(cs)
  {
    forall e | e in PropsOf(cs, code)
      ensures e.handle in HandlesOf(cs)
    {
      var i :| 0 <= i < |cs| && PropsOf(cs, code)[i] == e;
      assert HandlesOf(cs)[i] == e.handle;
    }
  }

  lemma {:induction false} EntriesFromChildren(rs: seq<PropRecord>, cs: seq<Child>, parent: U32)
    requires |rs| == |cs| && forall i :: 0 <= i < |cs| ==> Matches(rs[i], cs[i])
    ensures (forall c <- cs :: c.name != []) ==> EntriesFrom(rs, parent) == Success(FastEntries(cs, parent))
    ensures (exists c <- cs :: c.name == []) ==> EntriesFrom(rs, parent).Failure?
  {
    if rs != [] {
      EntriesFromChildren(rs[1..], cs[1..], parent);
      assert cs[0] in cs;
      assert forall c :: c in cs ==> c == cs[0] || c in cs[1..];
      assert FastEntries(cs, parent) == [FastEntry(cs[0], parent)] + FastEntries(cs[1..], parent);
    }
  }

  /** The fast way lists exactly the children, and works exactly when each has a name. */
  lemma FastListsChildren(ask: Ask, parent: U32, cs: seq<Child>)
    requires Separate(cs, parent) && DescribesFast(ask, parent, cs)
    ensures FastList(ask, parent).Success? <==> forall c <- cs :: c.name != []
    ensures FastList(ask, parent).Success? ==> FastList(ask, parent).value == FastEntries(cs, parent)
  {
    FoldGivesChildren(ask, parent, cs);
    hide Folded, PropAnswer;
    var es := PropAnswer(ask, parent, OBJECT_FILE_NAME).value + PropAnswer(ask, parent, OBJECT_SIZE).value
              + PropAnswer(ask, parent, OBJECT_FORMAT).value;
    EntriesFromChildren(Folded(es, parent), cs, parent);
  }

  lemma {:induction false} SlowEntriesFromInfos(ask: Ask, cs: seq<Child>, parent: U32)
    requires forall c <- cs :: InfoMatches(ask, c)
    ensures SlowEntries(ask, HandlesOf(cs), parent) == Success(SlowEntriesOf(cs, parent))
  {
    hide ObjectInfo.ParseInfo;
    if cs != [] {
      assert InfoMatches(ask, cs[0]);
      SlowEntriesFromInfos(ask, cs[1..], parent);
      assert HandlesOf(cs)[1..] == HandlesOf(cs[1..]);
      assert SlowEntriesOf(cs, parent) == [SlowEntry(cs[0], parent)] + SlowEntriesOf(cs[1..], parent);
    }
  }

  /** The two ways give the same entries exactly when every size fits its 32 bit field and
      every child has a name. */
  lemma FastEqualsSlowIff(ask: Ask, storage: U32, parent: U32, cs: seq<Child>)
    requires Separate(cs, parent)
    requires DescribesFast(ask, parent, cs) && DescribesSlow(ask, storage, parent, cs)
    ensures FastList(ask, parent) == SlowList(ask, storage, parent)
            <==> forall c <- cs :: c.name != [] && c.size <= 0xffff_ffff
    ensures SlowList(ask, storage, parent) == Success(SlowEntriesOf(cs, parent))
  {
    FastListsChildren(ask, parent, cs);
    SlowEntriesFromInfos(ask, cs, parent);
    SameEntriesIff(cs, parent);
    hide FastList, InfoMatches;
  }

  lemma SameEntriesIff(cs: seq<Child>, parent: U32)
    ensures FastEntries(cs, parent) == SlowEntriesOf(cs, parent) <==> forall c <- cs :: c.size <= 0xffff_ffff
  {
    var fast, slow := FastEntries(cs, parent), SlowEntriesOf(cs, parent);
    forall i | 0 <= i < |cs|
      ensures fast[i] == slow[i] <==> cs[i].size <= 0xffff_ffff
    {
    }
    assert forall i :: 0 <= i < |cs| ==> cs[i] in cs;
    assert (forall i :: 0 <= i < |cs| ==> fast[i] == slow[i]) <==> fast == slow;
  }

  /** What `list` answers on such a device: the same entries whichever way it takes, also
      after a fault turned the fast way off, and also for a child with no name. */
  lemma ListIsOneAnswer(ask: Ask, storage: U32, parent: U32, cs: seq<Child>)
    requires Separate(cs, parent) && forall c <- cs :: c.size <= 0xffff_ffff
    requires DescribesFast(ask, parent, cs) && DescribesSlow(ask, storage, parent, cs)
    ensures (if FastList(ask, parent).Success? then FastList(ask, parent) else SlowList(ask, storage, parent))
            == SlowList(ask, storage, parent)
  {
    FastListsChildren(ask, parent, cs);
    FastEqualsSlowIff(ask, storage, parent, cs);
  }

  // ----- a file that the two ways list differently -----

  /** A file "a" of 4 GiB. */
  const BIG := Child(7, [97], 0x1_0000_0000, ObjectInfo.UNDEFINED)

  function BigElement(code: U16): Element {
    Element(7, code,
            if code == OBJECT_FILE_NAME then WStr([97])
            else if code == OBJECT_SIZE then W64(false, 0x1_0000_0000)
            else W16(false, ObjectInfo.UNDEFINED))
  }

  /** A device that holds the one file in its root. */
  function BigAsk(): Ask {
    (code, params) =>
      if code == GET_OBJECT_PROP_LIST && |params| == 5 && params[2] < 0x1_0000 then
        Success(Le32(1) + ElementsBytes([BigElement(params[2])]))
      else if code == GET_OBJECT_INFO then
        Success(ObjectInfo.DatasetBytes(1, ROOT, [97], 0xffff_ffff, false))
      else Success(Le32(1) + Le32(7))
  }

  lemma BigName()
    ensures WellFormed([97]) && Cut([97]) == [97]
  {
  }

  lemma BigProps(code: U16)
    requires code in {OBJECT_FILE_NAME, OBJECT_SIZE, OBJECT_FORMAT}
    ensures PropAnswer(BigAsk(), ROOT, code) == Success([PropOf(BIG, code)])
  {
    hide ParsePropList, ElementsBytes, Le32, Cut, WellFormed, ObjectInfo.DatasetBytes;
    BigName();
    var e := BigElement(code);
    ParseUndoesEncoding([e], []);
    assert Le32(1) + ElementsBytes([e]) + [] == Le32(1) + ElementsBytes([e]);
    assert Meanings([e]) == [Meaning(e)];
    assert [ROOT, 0, code, 0, 1][2] == code;
  }

  lemma BigInfo()
    ensures InfoMatches(BigAsk(), BIG)
  {
    hide ObjectInfo.ParseInfo, ObjectInfo.DatasetBytes, ElementsBytes, Cut, WellFormed;
    BigName();
    ObjectInfo.ParseUndoesBuild(1, ROOT, [97], 0xffff_ffff, false, []);
    var b := ObjectInfo.DatasetBytes(1, ROOT, [97], 0xffff_ffff, false);
    assert b + [] == b;
    assert BigAsk()(GET_OBJECT_INFO, [7]) == Success(b);
  }

  /** The fast way lists the file with its size, and the older way with the largest size its
      field can hold. */
  lemma BigFileListsTwoWays()
    ensures FastList(BigAsk(), ROOT) == Success([ListEntry(7, ROOT, [97], false, 0x1_0000_0000)])
    ensures SlowList(BigAsk(), 1, ROOT) == Success([ListEntry(7, ROOT, [97], false, 0xffff_ffff)])
  {
    BigDescribed();
    FastListsChildren(BigAsk(), ROOT, [BIG]);
    FastEqualsSlowIff(BigAsk(), 1, ROOT, [BIG]);
    hide FastList, SlowList, DescribesFast, DescribesSlow;
    assert FastEntries([BIG], ROOT) == [FastEntry(BIG, ROOT)];
    assert SlowEntriesOf([BIG], ROOT) == [SlowEntry(BIG, ROOT)];
  }

  lemma BigDescribed()
    ensures Separate([BIG], ROOT)
    ensures DescribesFast(BigAsk(), ROOT, [BIG]) && DescribesSlow(BigAsk(), 1, ROOT, [BIG])
  {
    forall code | code in {OBJECT_FILE_NAME, OBJECT_SIZE, OBJECT_FORMAT}
      ensures PropAnswer(BigAsk(), ROOT, code).Success?
      ensures NotAbout(PropAnswer(BigAsk(), ROOT, code).value, ROOT) == PropsOf([BIG], code)
    {
      BigProps(code);
      OnlyEntry(PropOf(BIG, code));
      assert PropsOf([BIG], code) == [PropOf(BIG, code)];
    }
    BigInfo();
    BigHandles();
    hide PropAnswer, InfoMatches, NotAbout, BigAsk;
  }

  lemma OnlyEntry(e: PropEntry)
    requires e.handle != ROOT
    ensures NotAbout([e], ROOT) == [e]
  {
    assert [e][..0] == [];
  }

  lemma BigHandles()
    ensures var r := BigAsk()(GET_OBJECT_HANDLES, [1, 0, ROOT_ONLY]);
      r.Success? && HandlesIn(r.value) == HandlesOf([BIG])
  {
    hide Le32, Container.Parameters, Container.ParamBytes, ElementsBytes, ObjectInfo.DatasetBytes;
    var data := Le32(1) + Le32(7);
    OneHandle(data);
    assert BigAsk()(GET_OBJECT_HANDLES, [1, 0, ROOT_ONLY]) == Success(data);
  }

  lemma OneHandle(data: seq<Byte>)
    requires data == Le32(1) + Le32(7)
    ensures HandlesIn(data) == [7]
  {
    hide Le32, Container.Parameters;
    Container.ParametersUndoParamBytes([7], []);
    assert [7 as U32][1..] == [];
    assert Container.ParamBytes([7]) == Le32(7) + Container.ParamBytes([]);
    assert Container.ParamBytes([]) == [];
    hide Container.ParamBytes;
    assert data[4..] == Container.ParamBytes([7]) + [];
  }
}
