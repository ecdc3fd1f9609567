/** Collects the properties of each object into one record.
    `crates/ptp-proto/src/lib.rs`, lines 1175 to 1190 and 1254 to 1288. */
module Records {
  import opened Bytes
  import opened Reader
  import opened PropList
  import ObjectInfo

  datatype PropRecord = PropRecord(handle: U32, name: Name, size: U64, format: U16, parent: U32, storage: U32)
  {
    predicate IsFolder() {
      format == ObjectInfo.ASSOCIATION
    }
  }

  function Blank(handle: U32): PropRecord {
    PropRecord(handle, [], 0, 0, 0, 0)
  }

  /** One property written into a record; a property of another kind changes nothing. */
  function Apply(r: PropRecord, e: PropEntry): PropRecord {
    match e.value
    case Text(s) => if e.code == OBJECT_FILE_NAME then r.(name := s) else r
    case Number(n) =>
      if e.code == OBJECT_SIZE then r.(size := n)
      else if e.code == OBJECT_FORMAT then r.(format := n % 0x1_0000)
      else if e.code == PARENT_OBJECT then r.(parent := n % 0x1_0000_0000)
      else if e.code == STORAGE_ID then r.(storage := n % 0x1_0000_0000)
      else r
    case Wide => r
  }

  /** The distinct handles, in the order of their first appearance. */
  function FirstSeen(es: seq<PropEntry>): seq<U32> {
    if es == [] then []
    else
      var before := FirstSeen(es[..|es| - 1]);
      var h := es[|es| - 1].handle;
      if h in before then before else before + [h]
  }

  /** Everything the entries say about one handle. */
  function RecordOf(es: seq<PropEntry>, h: U32): PropRecord {
    if es == [] then Blank(h)
    else
      var before := RecordOf(es[..|es| - 1], h);
      if es[|es| - 1].handle == h then Apply(before, es[|es| - 1]) else before
  }

  function RecordsOf(es: seq<PropEntry>, hs: seq<U32>): (rs: seq<PropRecord>)
    ensures |rs| == |hs| && forall i :: 0 <= i < |hs| ==> rs[i] == RecordOf(es, hs[i])
  {
    seq(|hs|, i requires 0 <= i < |hs| => RecordOf(es, hs[i]))
  }

  /** One entry of the fold, for a handle that has its record at `at`. */
  lemma SeenStep(es: seq<PropEntry>, e: PropEntry, at: nat)
    requires at < |FirstSeen(es)| && FirstSeen(es)[at] == e.handle
    ensures FirstSeen(es + [e]) == FirstSeen(es)
    ensures RecordsOf(es + [e], FirstSeen(es)) == RecordsOf(es, FirstSeen(es))[at := Apply(RecordOf(es, e.handle), e)]
  {
    hide Apply;
    FirstSeenDistinct(es);
    assert (es + [e])[..|es|] == es;
  }

  /** And for a handle that comes up first. */
  lemma UnseenStep(es: seq<PropEntry>, e: PropEntry)
    requires e.handle !in FirstSeen(es)
    ensures FirstSeen(es + [e]) == FirstSeen(es) + [e.handle]
    ensures RecordsOf(es + [e], FirstSeen(es) + [e.handle])
      == RecordsOf(es, FirstSeen(es)) + [Apply(Blank(e.handle), e)]
  {
    hide Apply;
    UnseenIsBlank(es, e.handle);
    assert (es + [e])[..|es|] == es;
  }

  /** `fold_prop_list`: one record for each distinct handle, updated in place. */
  method Fold(es: seq<PropEntry>) returns (out: seq<PropRecord>)
    ensures out == RecordsOf(es, FirstSeen(es))
  {
    hide Apply, FirstSeen, RecordOf;
    out := [];
    FoldOfNone();
    var seen: map<U32, nat> := map[];
    for i := 0 to |es|
      invariant out == RecordsOf(es[..i], FirstSeen(es[..i]))
      invariant forall h :: h in seen <==> h in FirstSeen(es[..i])
      invariant forall h :: h in seen ==> seen[h] < |out| && FirstSeen(es[..i])[seen[h]] == h
    {
      var e := es[i];
      assert es[..i + 1] == es[..i] + [e];
      var at: nat;
      if e.handle in seen {
        at := seen[e.handle];
        SeenStep(es[..i], e, at);
      } else {
        UnseenStep(es[..i], e);
        at := |out|;
        out := out + [Blank(e.handle)];
        seen := seen[e.handle := at];
      }
      out := out[at := Apply(out[at], e)];
    }
    assert es[..|es|] == es;
  }

  lemma FoldOfNone()
    ensures FirstSeen([]) == []
  {
  }

  lemma {:induction false} FirstSeenDistinct(es: seq<PropEntry>)
    ensures forall i, j :: 0 <= i < j < |FirstSeen(es)| ==> FirstSeen(es)[i] != FirstSeen(es)[j]
    ensures forall h :: h in FirstSeen(es) <==> exists i :: 0 <= i < |es| && es[i].handle == h
  {
    if es != [] {
      FirstSeenDistinct(es[..|es| - 1]);
      forall h | exists i :: 0 <= i < |es| && es[i].handle == h
        ensures h in FirstSeen(es)
      {
        var i :| 0 <= i < |es| && es[i].handle == h;
        if i < |es| - 1 {
          assert es[..|es| - 1][i].handle == h;
        }
      }
    }
  }

  lemma {:induction false} RecordKeepsHandle(es: seq<PropEntry>, h: U32)
    ensures RecordOf(es, h).handle == h
  {
    if es != [] {
      RecordKeepsHandle(es[..|es| - 1], h);
    }
  }

  lemma {:induction false} UnseenIsBlank(es: seq<PropEntry>, h: U32)
    requires h !in FirstSeen(es)
    ensures RecordOf(es, h) == Blank(h)
  {
    if es != [] {
      UnseenIsBlank(es[..|es| - 1], h);
    }
  }

  /** Whether an entry writes the field that `code` names. */
  predicate Writes(e: PropEntry, h: U32, code: U16) {
    e.handle == h && e.code == code
    && if code == OBJECT_FILE_NAME then e.value.Text? else e.value.Number?
  }

  /** The last entry that writes a field decides it, whatever lies between and after. */
  lemma {:induction false} LastWriteWins(es: seq<PropEntry>, h: U32, code: U16, i: nat)
    requires i < |es| && Writes(es[i], h, code)
    requires forall j :: i < j < |es| ==> !Writes(es[j], h, code)
    ensures code == OBJECT_FILE_NAME ==> RecordOf(es, h).name == es[i].value.name
    ensures code == OBJECT_SIZE ==> RecordOf(es, h).size == es[i].value.n
    ensures code == OBJECT_FORMAT ==> RecordOf(es, h).format == es[i].value.n % 0x1_0000
    ensures code == PARENT_OBJECT ==> RecordOf(es, h).parent == es[i].value.n % 0x1_0000_0000
    ensures code == STORAGE_ID ==> RecordOf(es, h).storage == es[i].value.n % 0x1_0000_0000
  {
    if i < |es| - 1 {
      LastWriteWins(es[..|es| - 1], h, code, i);
    }
  }

  /** A field that no entry writes keeps its blank value. */
  lemma {:induction false} UnwrittenStaysBlank(es: seq<PropEntry>, h: U32, code: U16)
    requires forall e <- es :: !Writes(e, h, code)
    ensures code == OBJECT_FILE_NAME ==> RecordOf(es, h).name == []
    ensures code == OBJECT_SIZE ==> RecordOf(es, h).size == 0
    ensures code == OBJECT_FORMAT ==> RecordOf(es, h).format == 0
  {
    if es != [] {
      UnwrittenStaysBlank(es[..|es| - 1], h, code);
      assert es[|es| - 1] in es;
    }
  }
}
