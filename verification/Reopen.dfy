/** An `open` that asks for an empty file, of a path the mount has an entry for.
    `crates/mtpfs/src/main.rs`, lines 668 to 710. */
module Reopen {
  import opened Wrappers
  import opened PathTree
  import opened Device
  import opened World
  import opened Index
  import opened Upkeep
  import opened Callbacks
  import opened Walks
  import opened Runs
  import AsTold
  import ReadAhead
  import Host

  /** An `open` that writes and truncates, and answers 0, leaves an empty file exactly when the
      path had no entry, or one without bytes. With an entry it leaves every entry as it was. */
  lemma TruncatingOpenEmptiesIff(w: World, path: string, flags: nat)
    requires Good(w) && FlagWrites(flags) && FlagTruncates(flags) && Open(w, path, Some(flags)).rc == 0
    ensures var r := Open(w, path, Some(flags));
      && path in r.w.pending && (NoBytes(r.w, path) <==> NoBytes(w, path))
      && (path in w.pending ==>
            && r.w.pending == w.pending
            && Host.Contents(r.w.host, w.pending[path].spool) == Host.Contents(w.host, w.pending[path].spool))
  {
    OpenOpens(w, path, Some(flags));
    var r := Open(w, path, Some(flags));
    hide Open, Works, BaseOk, FlagWrites, FlagTruncates, FhMarked, ReadAhead.Generous, Walk, ForObject,
         Onward;
    if path in w.pending {
      assert EntryOk(w, w.pending[path]);
    }
  }

  /** One file of two bytes, and an entry for it that a refused change of size left behind. */
  ghost predicate Leftover(d: Desk) {
    && d.w.m.dev.store == Store(map[1 := Object(ROOT, "a", false, [7, 8])], [1], 2) && d.w.tree == OneFileTree(2)
    && d.w.pending == map["/a" := NewPending(ROOT, "a", 0, 2, Some(1))] && d.w.host.files == map[0 := [7, 8]]
    && d.open == map[]
    && |d.w.m.dev.script| == 5 && d.w.m.dev.script[0].free >= 2
    && (forall i :: 0 <= i < 5 ==> d.w.m.dev.script[i].verdict.Done?)
    && |d.w.host.script| == 2 && d.w.host.script[0].ok && d.w.host.script[0].moved > 0 && d.w.host.script[1].ok
  }

  /** The file is opened to be written from empty, one byte is written, and the flush answers 0.
      The second byte of the old file is still there. */
  lemma ReopenedKeepsByte(d: Desk)
    requires Leftover(d)
    ensures var fh := 1 + FH_WRITER; var begun := StepOpen(d, 0, "/a", 0x401);
      var written := StepWrite(begun, "/a", [9], 0); var flushed := Flush(written.w, "/a", Some(fh));
      && begun.open == map[0 := Slot("/a", fh)] && begun.w == d.w && flushed.rc == 0
      && Shadow(written, "/a") == [9]
      && flushed.w.m.dev.store.objects == map[2 := Object(ROOT, "a", false, [9, 8])]
  {
    hide Resolve, AdoptForWrite, SendPending;
    FindsOneFile(d.w, 2);
    MarkAndHandle(1);
    assert Host.Splice([], 0, [9]) == [9];
    var w1 := Write(d.w, "/a", [9], 0).w;
    OneByteIn(d.w);
    hide Write;
    AsTold.Replaces(Without(w1, "/a"), [7, 8], [9, 8]);
  }

  lemma OneByteIn(w: World)
    requires w.pending == map["/a" := NewPending(ROOT, "a", 0, 2, Some(1))] && w.host.files == map[0 := [7, 8]]
    requires w.host.script != [] && w.host.script[0].ok && w.host.script[0].moved > 0
    ensures var w1 := Write(w, "/a", [9], 0).w;
      && w1.m == w.m && w1.tree == w.tree && w1.pending == w.pending
      && w1.host.files == map[0 := [9, 8]] && w1.host.script == w.host.script[1..]
  {
    assert Host.Splice([7, 8], 0, [9]) == [9, 8];
    assert [9][..1] == [9] && [9][1..] == [];
  }
}
