# bsdroid: a filesystem over MTP, modelled and proved

bsdroid mounts a cellphone as a folder. MTP, the protocol it speaks, has no write in place, no
rename over a name that is taken and no atomic step, so the mount builds all three from
operations of which each may fail. This project models that mount in Dafny and proves what it
promises: that a replace or a rename loses no bytes at any step, that the lazily read index
agrees with the device over whole runs, that an open file behaves like a plain sequence of
bytes, that the session frames every send for USB and never takes a short answer for a whole
one, and that the codecs undo each other.

## How the model is built

* **The phone** (`Device.dfy`) is a store of objects (folder, name, kind, bytes), the order in
  which it lists them, and a script that decides how each request goes: done, refused, or lost
  with no answer. A log keeps the store after every request, so that "at every step" is a
  statement about the log. Every theorem holds for every script.
* **The host's disk** (`Host.dfy`) is a map from spool number to bytes, with a script that
  decides which calls fail, with what error number, and how few bytes a call moves.
* **The mount** is written twice. `World.dfy` and `Backend.dfy` give each callback as a function
  on a value, branch for branch. `Fs.dfy`, `MtpSession.dfy`, `PathTree.dfy`, `Session.dfy`,
  `Listing.dfy` and `Host.dfy` give the same callbacks as classes whose methods update fields
  step by step, with the source's loops, and prove that they compute those functions. The laws
  are then lemmas about the functions, and so hold of the methods.
* **Runs** (`Runs.dfy`, `RunLaws.dfy`) are sequences of calls from any number of programs: the
  kernel's open files, the mount, and beside each open write the plain bytes it stands for.

The files, from the wire up: `Bytes`, `Container`, `Reader`, `ObjectInfo`, `PropList`, `Records`
(PTP datasets), `Descriptor` (USB descriptors), `Framing`, `Session` (the data phase),
`Listing`, `ReadAhead` (listings and reads), `PathTree`, `Index`, `Walks` (the path index and
the walk it stands for), `SwapSafety`, `SwapLimits`, `RenameSafety`, `RenameIndex`,
`RenameCall` (the multi-step protocols), `Upkeep`, `Callbacks`, `WholeCopy`, `TruncateLeft`
(what each callback keeps and means), `Runs`, `RunLaws`, `Reopen`, `Delivery`, `SendLog`,
`DiskTidy` (whole runs). `AsTold` holds the single requests that the concrete examples are made
of.

## What is assumed

* A request that is not answered with success changed nothing: the case where the phone did the
  work and only the answer was lost is not modelled. A failed `SendObject` leaves no object.
* The phone never gives a handle out twice, keeps a folder that still holds objects, and does
  not change by itself between two requests. It never changes the bytes of an object it holds.
* Names with the aside suffix fit the 254 units of a PTP string.
* The kernel passes a rename two paths whose last part names something (`Proper`).
* A whole run has at most one writer of a path, opens that truncate only where no entry holds
  bytes, writes that bring at least one byte, and no rename of a file that is open for writing
  or of a folder above one. (libfuse turns the removal or replacement of an open file into such a
  rename, to a hidden name, so those count too.) Where the code misbehaves outside these, a lemma
  says exactly when: see below.

## Where the code does less than its documentation says

Each of these is stated as an exact condition and shown at an input, in the table below.

* What is written or cut after the first `flush` never reaches the phone, although every call
  answers with success (`Delivery.LateChangeIsLostIff`, `RunLaws.LateByteIsLost`).
* A rename whose target is in a folder that the phone did not list just then takes the new name
  for free. It answers 0 and leaves the old target beside the new file, first in the folder
  (`RenameCall.OldTargetGoesIff`, `RenameCall.HiddenFileStays`).
* The comment in `op_rename` promises that the folder looks as it did after a fault. A target
  that moved aside stays aside when the move is refused, and no move to another folder is ever
  taken back (`RenameCall.CallErrorIsUndoneIff`, `RenameCall.AsideStays`).
* A rename to another folder that moves and then cannot rename leaves the old folder's listing
  in the tree, with a file that is no longer there (`RenameIndex.RenameKeepsIndexIff`,
  `RenameCall.StrandedFile`).
* A rename does not move the entries of files open for writing below it: their next write meets
  EROFS, and their close answers 0 and sends nothing (`Runs.RenameKeepsWritersIff`,
  `Runs.FolderRenameLosesWriter`).
* A read that the phone answers with no bytes ends the copy of a file opened for writing. `open`
  answers 0, and the next `flush` replaces the whole file by the part
  (`WholeCopy.AdoptIsWholeIff`, `WholeCopy.EmptyAnswerLosesFile`).
* An `open` that asks for an empty file truncates nothing when the path has an entry already,
  as a refused `truncate` leaves one. It answers 0, and the old bytes go out with the next `flush`
  (`Reopen.TruncatingOpenEmptiesIff`, `Reopen.ReopenedKeepsByte`).
* The comment of `aside_name` promises that the old contents stay until the new ones hold the
  name. They go first when both do not fit on the phone, also for contents of a size that is then
  refused with no request (`SwapLimits.EveryStepKeepsIff`, `SwapLimits.EndsWithoutCopyIff`,
  `SwapLimits.OversizeIsRemovedFirst`).
* The comment of `Drop` promises that a fault removes the spool file. An adoption that faults
  after it made the file leaves it on the disk (`DiskTidy.DiskIsTidyIff`,
  `DiskTidy.SpoolFileStays`).
* A write of no bytes past the end raises the size and not the file
  (`Callbacks.WriteKeepsSizeIff`, `Callbacks.EmptyWritePastEnd`).
* The 32-bit partial read asks for the wrong place from 4 GiB on, and the mount serves the bytes
  (`ReadAhead.OffsetReachesTheDeviceIff`, `ReadAhead.ByteAfter4GiBIsWrong`).
* `truncate` of a closed file leaves an entry behind when the spool cannot take the size
  (`TruncateLeft.TruncateLeavesEntryIff`, `TruncateLeft.TruncateLeavesEntry`).
* The two ways to list a folder differ for an object without a name or of 4 GiB and more
  (`Listing.FastEqualsSlowIff`, `Listing.BigFileListsTwoWays`).
* `resolve` gives nothing for an object that exists when 64 folders on its path are not yet
  listed (`Index.ResolveIsWalkIff`, `Walks.DeepFolderIsNotFound`).

## Model

| member | source | states |
|---|---|---|
| `SwapSafety.SwapKeepsACopy` | crates/mtpfs/src/main.rs:1121-1231 | whatever fails, after every request of a send onto an existing file the phone holds the old file whole (under its name, the new one or the aside name) or the new one whole; only when it reports no room for both may it end with neither, and then the spool, which no step touches, is marked to stay |
| `SwapSafety.CloseKeepsACopy` | crates/mtpfs/src/main.rs:76-88 | after a close with no flush before it, a whole copy is on the phone, or the spool file is still on the disk with its bytes |
| `SwapSafety.FlushAndCloseKeepACopy` | crates/mtpfs/src/main.rs:1260-1313 | the same for a flush and then a close |
| `SwapSafety.SwapOutcome` | crates/mtpfs/src/main.rs:1150-1230 | an answer of 0 leaves exactly the spool's bytes under the real name, the old object gone (or aside only because the last request, its delete, failed) and every other object as it was; an error leaves one of four states, each with its cause |
| `SwapSafety.FailedSwapIsUndone` | crates/mtpfs/src/main.rs:1204-1229 | an error with room for two copies leaves every object exactly as before, unless the last request, the rename back, failed too |
| `SwapSafety.NewFileOutcome` | crates/mtpfs/src/main.rs:1189-1230 | sending a new file adds exactly one object with the spool's bytes, or changes nothing |
| `SwapSafety.SentWhole` | crates/mtpfs/src/main.rs:1189-1201 | an answer of 0 means the spool held all the bytes that were announced |
| `SwapSafety.BrokenIsNeverSent` | crates/mtpfs/src/main.rs:1121-1130 | a spool that took only part of a write makes no request at all and answers with the write's own error |
| `SwapSafety.NoSpaceIff` | crates/mtpfs/src/main.rs:1150-1187 | a replace answers ENOSPC if and only if the contents fit neither beside the old object nor in its place, and then no object changed |
| `SwapSafety.SendStream` | crates/mtpfs/src/backend.rs:954-989 | between announcing and sending, no request changes any object; the send adds the whole object under the handle it was promised, or nothing |
| `SwapLimits.EveryStepKeepsIff` | crates/mtpfs/src/main.rs:1150-1187 | every step of a send onto an existing file keeps a whole copy on the phone if and only if it is not the case that the spool is unbroken and rewound, the contents fit in the place of the old object and not beside it, and the phone does its removal |
| `SwapLimits.EndsWithoutCopyIff` | crates/mtpfs/src/main.rs:1163-1230 | the send ends with no whole copy on the phone if and only if that is the case and the contents do not follow: a size that cannot be announced, a short spool, no such folder or no more handles, or a refused request |
| `SwapLimits.OversizeIsRemovedFirst` | crates/mtpfs/src/main.rs:1163-1187 | a concrete one: for contents of one byte more than the session can announce the phone removes the old file, and no request for the new one follows |
| `RenameSafety.RenameLosesNothing` | crates/mtpfs/src/main.rs:873-950 | after every request of a rename the source's bytes are there, and the bytes of the file that held the new name too, until the source carries that name in its new folder |
| `RenameSafety.RenameOutcome` | crates/mtpfs/src/main.rs:896-949 | the protocol on a plan: an answer of 0 means that the new name in the new folder is the source object, the target of the plan is gone (or aside only because the last request failed), and nothing else changed, not even the order of the listing |
| `RenameSafety.RenameAnswersIff` | crates/mtpfs/src/main.rs:896-949 | the answer is 0 if and only if each of the three steps that has something to do is one the phone has an operation for and does |
| `RenameSafety.ErrorIsUndoneIff` | crates/mtpfs/src/main.rs:896-934 | any error leaves the objects as they were if and only if nothing moved aside, or nothing did and the move was refused, or the rename stays in one folder and the phone does the rename back |
| `RenameSafety.AsideNamesAreUnique` | crates/mtpfs/src/main.rs:1007-1010 | an aside name has one reading: two of them are equal only for one name and one number; so within one mount, whose counter only goes up, no move aside meets an earlier one |
| `RenameSafety.AsideDiffers` | crates/mtpfs/src/main.rs:1007-1010 | an aside name is never the name it stands in for |
| `RenameCall.RenameCallLosesNothing` | crates/mtpfs/src/main.rs:842-950 | the same for the call itself: for any two paths, after every request the object the old path walks to is there with its bytes, and so is the one the new path walks to, whether the call saw it or not, until the first carries the new name in the new folder |
| `RenameCall.TargetSeenIff` | crates/mtpfs/src/main.rs:887-894 | the call takes the object its new path walks to for its target if and only if the new folder is listed by then or the phone answers its listing |
| `RenameCall.ListedIsShown` | crates/mtpfs/src/main.rs:887-894 | which holds for every folder listed before the call |
| `RenameCall.RenameCallOutcome` | crates/mtpfs/src/main.rs:842-950 | an answer of 0 to any two paths means that both walk to one object and nothing changed, or that the object the old path walks to now has the new name in the folder the new path walks to, and only the target it saw went besides |
| `RenameCall.OldTargetGoesIff` | crates/mtpfs/src/main.rs:887-949 | of an answer of 0: the object the new path walked to is left as it was if and only if the call was not shown the new folder, and else it is gone, or aside only because the last request failed |
| `RenameCall.NewPathLeadsIff` | crates/mtpfs/src/main.rs:842-950 | of an answer of 0, to a folder not below the source: the new path walks to the source if and only if, before the call, no object but the target it took carried the new name in that folder and stood before the source in the phone's order |
| `RenameCall.HiddenFileStays` | crates/mtpfs/src/main.rs:887-894 | a concrete one: the listing of the new folder is lost, the call answers 0, and the new path still walks to the old file |
| `RenameCall.CallErrorIsUndoneIff` | crates/mtpfs/src/main.rs:842-934 | an error of the call leaves every object as it was if and only if its checks gave the error or the protocol took its steps back |
| `RenameCall.AsideStays` | crates/mtpfs/src/main.rs:898-921 | a concrete one: the move is refused, the call answers EIO, and the target stays under its aside name |
| `RenameIndex.PlanIsWell` | crates/mtpfs/src/main.rs:847-894 | the checks change no object; a source, a target and two folders they hand on are the ones the paths walk to on the phone, listed and as the tree remembers them; and an answer of 0 from them means that both paths walk to one object |
| `Walks.SplitParentSplits` | crates/mtpfs/src/main.rs:1013-1019 | the folder part and the name split a path exactly where the tree's own splitting puts the last part |
| `RenameIndex.RenameKeepsIndexIff` | crates/mtpfs/src/main.rs:898-949 | a rename keeps the index, the cache and every open write right if and only if it is not one to another folder and another name whose move the phone does and whose rename it does not |
| `RenameIndex.StrandedIsStale` | crates/mtpfs/src/main.rs:916-933 | a move that is left half done always leaves a wrong listing |
| `RenameCall.StrandedFile` | crates/mtpfs/src/main.rs:842-933 | a concrete one: the call answers EIO, and the tree goes on listing a file in a folder that does not hold it |
| `RenameIndex.RenameKeepsEntries` | crates/mtpfs/src/main.rs:842-950 | a rename touches no open write and no spool |
| `Index.ResolveIsWalkIff` | crates/mtpfs/src/main.rs:529-541 | on an answering phone `resolve` gives what a direct first-match walk of the phone gives if and only if fewer than 64 folders on the way are unlisted or nothing is there; so always for paths of at most 63 parts |
| `Walks.DeepFolderIsNotFound` | crates/mtpfs/src/main.rs:529-541 | a concrete one: the innermost of 64 nested folders is there and is not found on a fresh mount |
| `Walks.WalkIsUnique` | crates/mtpfs/src/tree.rs:115-134 | two paths that walk to one object have the same parts |
| `Index.ResolveLoopWalks` | crates/mtpfs/src/main.rs:529-541 | with any faults, `resolve` keeps the index right and every handle it does give is the one the direct walk gives |
| `Index.LookupFollowsWalk` | crates/mtpfs/src/tree.rs:115-134 | in a tree whose listings hold, a lookup that ends agrees with the walk, and one that asks asks for a folder of the walk that is not listed |
| `Index.ListingIsCoherent` | crates/mtpfs/src/tree.rs:84-92 | a listing read now holds, and disturbs no other that holds |
| `Index.ForgetIsCoherent` | crates/mtpfs/src/tree.rs:171-174 | a forgotten listing is stale no more, and the others hold as before |
| `Index.StaysCoherent` | crates/mtpfs/src/tree.rs:84-174 | a change of the phone makes stale only the listings of folders whose children it touched |
| `Index.RenameEvolves` | crates/mtpfs/src/backend.rs:908-920 | a rename on the phone touches at most the folder of its object, and a refused one nothing |
| `Index.MoveEvolves` | crates/mtpfs/src/backend.rs:923-935 | a move touches the folder it leaves and the one it enters |
| `Index.SendEvolves` | crates/mtpfs/src/backend.rs:954-989 | a send touches at most the folder the new object arrives in |
| `PathTree.PathThenLookup` | crates/mtpfs/src/tree.rs:115-165 | `lookup(path_of(h))` gives `h` back for every object at most 255 deep whose ancestors are listed and hold it first under its name |
| `PathTree.PathOfEndsOnEveryTree` | crates/mtpfs/src/tree.rs:143-165 | a path comes out if and only if the root is at most 255 parents away |
| `PathTree.CycleGivesNoPath` | crates/mtpfs/src/tree.rs:143-165 | every cycle of parents that misses the root ends with no path |
| `PathTree.SplitUndoesJoin` | crates/mtpfs/src/tree.rs:195-197 | names joined into a path split back into themselves |
| `PathTree.Tree.SetChildren` | crates/mtpfs/src/tree.rs:84-92 | the loop leaves the entries, the children and the listed set of the specification, on which the coherence lemmas rest |
| `PathTree.Tree.ForgetListing` | crates/mtpfs/src/tree.rs:171-174 | takes the folder out of both the listed set and the children, and leaves the entries |
| `PathTree.Tree.Lookup` | crates/mtpfs/src/tree.rs:115-134 | the loop over the parts gives the recursive lookup of the whole path |
| `PathTree.Tree.PathOf` | crates/mtpfs/src/tree.rs:143-165 | the climb with its reversed parts gives the path from the root |
| `Runs.RunKeeps` | crates/mtpfs/src/main.rs:21-30 | after any interleaving of calls every listing the tree holds is right, the cache holds true bytes, every spool is as long as its entry says, no two entries share one, every open writer has its entry, and (when no read is answered empty) every whole spool holds exactly the bytes its opens, writes and cuts stand for |
| `Runs.StepKeeps` | crates/mtpfs/src/main.rs:553-1520 | each single callback keeps all of that; so no call, of a reader or of the writer of another path, takes an open writer's entry away |
| `Runs.RenameKeepsWritersIff` | crates/mtpfs/src/main.rs:842-950 | a rename that answers 0 keeps every open writer with its entry, under the path the kernel then has for it, if and only if no file at the old path or below it is open for writing |
| `Runs.MovedWriterIsLost` | crates/mtpfs/src/main.rs:842-950 | whenever a rename moves a writer to a path without an entry, its next write meets EROFS, and its flush answers 0 with no request |
| `Runs.FolderRenameLosesWriter` | crates/mtpfs/src/main.rs:842-950 | a concrete one: the folder above a new file is renamed while a program writes the file |
| `RunLaws.ResolveAfterRun` | crates/mtpfs/src/main.rs:529-541 | after any run from a fresh mount, every path of at most 63 parts resolves to what a direct walk of the phone finds |
| `RunLaws.WriterWrites` | crates/mtpfs/src/main.rs:1069-1116 | after any run a write by an open writer finds its entry, so it never meets the mount's EROFS: an error is the disk's own and is kept in the entry, and success answers the whole count |
| `RunLaws.ReachedIsKept` | crates/mtpfs/src/main.rs:21-30 | every mount that a legal run from a fresh one leaves keeps all of that, so the laws below hold of it |
| `RunLaws.ReaderClosesNothing` | crates/mtpfs/src/main.rs:1264-1301 | the close of a handle that reads changes nothing at all, whatever is open for writing |
| `RunLaws.OneFileEndToEnd` | crates/mtpfs/src/main.rs:1022-1313 | create, write, flush and close with no fault: a legal run that leaves the one object with its byte, no entry and no spool file |
| `RunLaws.ReadSeesWrites` | crates/mtpfs/src/main.rs:1441-1472 | after any run a read of a file open for writing gives the bytes the writes stand for: a prefix of the range, and all of it when the disk gives all that is asked |
| `RunLaws.FlushDelivers` | crates/mtpfs/src/main.rs:1260-1287 | after any run a first flush that answers 0 puts exactly the bytes the opens, writes and cuts stand for on the phone under the file's name, the replaced object gone, or under the aside name of that moment only because its removal failed, everything else as it was |
| `Reopen.TruncatingOpenEmptiesIff` | crates/mtpfs/src/main.rs:668-710 | an `open` that writes and truncates, and answers 0, leaves an empty file if and only if the path had no entry before, or one without bytes; with an entry it leaves every entry and its bytes as they were |
| `Reopen.ReopenedKeepsByte` | crates/mtpfs/src/main.rs:685-698 | a concrete one: a file of two bytes with a left entry is opened to be written from empty, one byte is written, and the flush answers 0 and delivers two |
| `Delivery.DeliveredPathLeadsIff` | crates/mtpfs/src/main.rs:1260-1287 | after any run and a flush that answers 0, while the entry is in the folder its path walks to: the path walks to the new object if and only if, before the flush, no object of that folder but the replaced one carried the name |
| `Delivery.ReachedIsNamed` | crates/mtpfs/src/main.rs:720-1066 | after any run every entry carries the name that its path ends in |
| `Delivery.RunEndures` | crates/mtpfs/src/main.rs:21-30 | over any run an object that stays on the phone keeps its bytes |
| `RunLaws.SentExactlyOnce` | crates/mtpfs/src/main.rs:1260-1313 | of the flushes and releases of an entry in any run, exactly one finds it unsent if one reaches it unsent at all |
| `SendLog.SendsOnlyWhereItMay` | crates/mtpfs/src/main.rs:553-1520 | no call logs a send of an object but a flush or release by a writer that finds its entry unsent and a `truncate` of a closed file; those log at most one, and such a flush that answers 0 exactly one |
| `SendLog.RunSendsAtMost` | crates/mtpfs/src/main.rs:1260-1361 | over any run the phone receives at most one object for each of those calls |
| `DiskTidy.DiskIsTidyIff` | crates/mtpfs/src/main.rs:64-88 | over any run from a mount with no spool file, the files on the disk are those of the entries and those marked to stay if and only if no adoption faulted after its file was made |
| `DiskTidy.RunLeaves` | crates/mtpfs/src/main.rs:720-811 | over any run the files no entry holds grow by exactly one for each such adoption and one for each dropped entry that is marked to stay, and no file is both |
| `DiskTidy.SpoolFileStays` | crates/mtpfs/src/main.rs:747-756 | a concrete one: the read of a one-byte file is not answered, the open answers EIO, and an empty spool file stays |
| `RunLaws.NoSendNoChange` | crates/mtpfs/src/main.rs:1273-1287 | a close that finds the entry sent makes no request |
| `RunLaws.AnswerStays` | crates/mtpfs/src/main.rs:1273-1287 | whatever happens in between, each later flush repeats the first answer and changes nothing |
| `RunLaws.EntryLasts` | crates/mtpfs/src/main.rs:656-1361 | only its writer's release or a new file of the same path ends an entry; any other call leaves its spool and its answer |
| `Delivery.LateChangeIsLostIff` | crates/mtpfs/src/main.rs:1273-1313 | after a flush that answers 0, whatever legal calls follow, the release asks the phone for nothing; the sent object, while it is there, holds the contents at the flush, which are the final ones if and only if nothing changed them in between |
| `RunLaws.LateWriteIsLostIff` | crates/mtpfs/src/main.rs:1273-1282 | for one write directly between flush and release: the phone holds the final contents if and only if the write changed nothing |
| `RunLaws.LateByteIsLost` | crates/mtpfs/src/main.rs:1273-1282 | a concrete run: flush, write one byte, close; all succeed, and the phone keeps an empty file |
| `RunLaws.TruncateDelivers` | crates/mtpfs/src/main.rs:1316-1361 | `truncate` of a closed file that answers 0 leaves the object's bytes, cut or filled with zeros to the size, under the same name in the same folder, the old object gone, or under the aside name of that moment only because its removal failed |
| `RunLaws.SendDelivers` | crates/mtpfs/src/main.rs:1121-1231 | a send that answers 0 delivers the spool's bytes, whether the file is new or replaces one |
| `RunLaws.GoneIsNotReplaced` | crates/mtpfs/src/main.rs:1150-1177 | a write whose old object was removed meanwhile cannot answer 0 |
| `Callbacks.CopyLoopCopies` | crates/mtpfs/src/main.rs:780-811 | the copy into a spool gives a prefix of the object, the whole of it when no read is answered empty, and touches no other spool |
| `WholeCopy.AdoptIsWholeIff` | crates/mtpfs/src/main.rs:720-811 | an adoption that keeps the old bytes and answers 0 has all of them if and only if its last request, if it made any, was not answered with no bytes |
| `WholeCopy.EmptyAnswerLosesFile` | crates/mtpfs/src/main.rs:668-811 | a concrete one: a one-byte file is opened for writing, the copy is answered empty, and the flush answers 0 and leaves an empty file for it |
| `Callbacks.AdoptAdopts` | crates/mtpfs/src/main.rs:720-773 | an adopted file has a new spool with the object's bytes (or none, when they are not wanted), an entry for that object, and no request that changes the phone |
| `Callbacks.AdoptRefusesIff` | crates/mtpfs/src/main.rs:729-744 | an adoption answers ENOSPC if and only if the old bytes are wanted and the spool folder reports less room than they take, and then nothing happened |
| `Callbacks.OpenFaultsIff` | crates/mtpfs/src/main.rs:677-684 | `open` answers ENOENT if and only if `resolve` gives nothing, and EISDIR if and only if it gives the root or a folder |
| `Callbacks.OpenOpens` | crates/mtpfs/src/main.rs:668-710 | an `open` for writing that answers 0 gives a marked handle and has an entry: a new one for the object the path walks to, with its bytes or with none, when there was none; and otherwise the one there was, which like every other entry and spool it leaves alone |
| `Callbacks.CreateCreates` | crates/mtpfs/src/main.rs:1022-1066 | a new file is an empty entry in the folder the path names, that replaces nothing; a fault makes none |
| `Callbacks.WriteWrites` | crates/mtpfs/src/main.rs:1069-1116 | a write that brings bytes reaches one entry, splices into its spool, and keeps its size equal to the file unless it marks it broken |
| `Callbacks.WriteKeepsSizeIff` | crates/mtpfs/src/main.rs:1106-1113 | a whole write keeps the size right if and only if it brings bytes or starts inside the file |
| `Callbacks.EmptyWritePastEnd` | crates/mtpfs/src/main.rs:1106-1113 | a concrete one: a write of nothing at offset 3 of an empty file |
| `Callbacks.TruncateOpenCuts` | crates/mtpfs/src/main.rs:1321-1330 | a change of size of an open file cuts or fills its spool and moves the size with it, or changes neither |
| `Callbacks.TruncateClosedTruncates` | crates/mtpfs/src/main.rs:1331-1360 | `truncate` of a closed file works on that path alone, and an entry it leaves is a right one |
| `TruncateLeft.TruncateLeavesEntryIff` | crates/mtpfs/src/main.rs:1331-1360 | `truncate` of a closed file leaves an entry in the map if and only if the path gives a file, the spool is made and filled, and the disk refuses the one call after that |
| `TruncateLeft.TruncateLeavesEntry` | crates/mtpfs/src/main.rs:1345-1358 | a concrete one: EIO, and an entry that no program will close |
| `Callbacks.FlushFlushes` | crates/mtpfs/src/main.rs:1260-1287 | a flush by a writer leaves its entry in the map with its answer, the spool as it was, and the entry rightly placed; a second one is the first answer and nothing else |
| `Callbacks.ReleaseReleases` | crates/mtpfs/src/main.rs:1295-1313 | a release by a writer takes its entry and nobody else's; one by a reader does nothing |
| `Callbacks.ReadReads` | crates/mtpfs/src/main.rs:1441-1518 | a read gives the spool's range of a file open for writing and else the object's, and leaves every entry alone |
| `Callbacks.ReadObjectReads` | crates/mtpfs/src/main.rs:1482-1518 | a handle opened earlier reads its object's slice whatever the tree has forgotten since, and an object that is gone gives no bytes |
| `Callbacks.RemovePathRemoves` | crates/mtpfs/src/main.rs:1376-1411 | an answer of 0 removed exactly the object the path names on the phone, of the kind that was meant; an error removed none |
| `Callbacks.MkdirMakes` | crates/mtpfs/src/main.rs:1414-1438 | an answer of 0 added exactly one folder, under the name and in the folder the path names; an error added none |
| `Callbacks.ReadFolderReads` | crates/mtpfs/src/main.rs:612-633 | the folder a listing callback shows holds the children the phone holds now |
| `Upkeep.SendPendingSends` | crates/mtpfs/src/main.rs:1121-1231 | on every way out of a send the index is right again, no spool is touched, and the entry still names an object of its own folder |
| `Upkeep.PathIsGood` | crates/mtpfs/src/main.rs:21-74 | a callback that works on one path and leaves its own entry right keeps every other entry right |
| `Upkeep.FoundEntry` | crates/mtpfs/src/tree.rs:95-134 | the entry of a handle that a path just gave is the object's own: folder, name, kind and size |
| `Fs.Fs.Resolve` | crates/mtpfs/src/main.rs:529-541 | the bounded loop computes the `resolve` the walk laws are about |
| `Fs.Fs.CopyObjectToSpool` | crates/mtpfs/src/main.rs:780-811 | the loop computes the copy the prefix law is about |
| `Fs.Fs.AdoptForWrite` | crates/mtpfs/src/main.rs:720-773 | step by step on the disk, the session and the map, the adoption the lemmas are about |
| `Fs.Fs.Open` | crates/mtpfs/src/main.rs:668-710 | the same for `open`, with the handle it gives |
| `Fs.Fs.Create` | crates/mtpfs/src/main.rs:1022-1066 | the same for `create` |
| `Fs.Fs.WriteSpool` | crates/mtpfs/src/main.rs:1086-1109 | the loop over the disk's short writes ends whole, short or with a fault as the recursive write does |
| `Fs.Fs.Write` | crates/mtpfs/src/main.rs:1069-1116 | the same for `write`, with the answer and the broken mark |
| `Fs.Fs.SendSpool` | crates/mtpfs/src/main.rs:1189-1230 | the same for the last part of a send |
| `Fs.Fs.SendPending` | crates/mtpfs/src/main.rs:1121-1231 | the send, request by request on the real session, is the one the swap laws are about |
| `Fs.Fs.Flush` | crates/mtpfs/src/main.rs:1260-1287 | the same for `flush`: take the entry out, send once, put it back with its answer |
| `Fs.Fs.Release` | crates/mtpfs/src/main.rs:1295-1313 | the same for `release`, with the drop of the spool |
| `Fs.Fs.Truncate` | crates/mtpfs/src/main.rs:1316-1361 | the same for `truncate`, of an open file and of a closed one |
| `Fs.Fs.Read` | crates/mtpfs/src/main.rs:1441-1518 | the same for `read`: the spool first, then the handle, then the path |
| `Fs.Fs.RemoveObject` | crates/mtpfs/src/main.rs:1376-1411 | the same for `unlink` and `rmdir` |
| `Fs.Fs.Mkdir` | crates/mtpfs/src/main.rs:1414-1438 | the same for `mkdir` |
| `Fs.Fs.Rename` | crates/mtpfs/src/main.rs:842-950 | the same for `rename`: the checks in the source's order, and then the protocol |
| `Fs.Fs.CarryOut` | crates/mtpfs/src/main.rs:873-950 | the rename protocol, request by request on the real session, is the one the rename laws are about |
| `Fs.Fs.Drop` | crates/mtpfs/src/main.rs:76-88 | the spool file goes unless the entry says that it must stay |
| `Host.WriteLoopSplices` | crates/mtpfs/src/main.rs:1086-1109 | however the disk cuts a write, one that ends whole is one splice, and no other file changes |
| `Host.SpliceInTwo` | crates/mtpfs/src/main.rs:1086-1091 | two writes end to end are one write, also past the end of the file |
| `Host.Disk.WriteAt` | crates/mtpfs/src/main.rs:1088-1091 | one call takes a prefix of the bytes and puts it in its place, filling a gap with zeros |
| `World.MarkAndHandle` | crates/mtpfs/src/main.rs:196-212 | the writer mark and the 32-bit handle never disturb each other |
| `ReadAhead.ReadAtIsSlice` | crates/mtpfs/src/backend.rs:723-780 | whatever range the cache holds, a read ends with a prefix of exactly `object[offset..offset+want]`, the whole of it when no answer is empty, and faults exactly when a request did; it leaves the cache true, and no request of it stalls a phone |
| `ReadAhead.ReadAfterAnyRun` | crates/mtpfs/src/backend.rs:723-1061 | after any run of reads, sends, deletes, renames and moves, a read gives the exact slice of what the object holds then |
| `ReadAhead.CacheHoldsOverRuns` | crates/mtpfs/src/backend.rs:954-1061 | over any such run the cache holds bytes its object holds at that place |
| `ReadAhead.SplitStallsNever` | crates/mtpfs/src/backend.rs:324-333 | the two parts join to the range, and neither reaches the end of the file on a whole number of packets |
| `ReadAhead.ReadFromDeviceIsPrefix` | crates/mtpfs/src/backend.rs:784-815 | one request of the loop, also when it is split, reads a prefix of its range, and not an empty one |
| `ReadAhead.HitIsSlice` | crates/mtpfs/src/backend.rs:342-361 | a hit gives the object's own bytes at the place that was asked for |
| `ReadAhead.OffsetReachesTheDeviceIff` | crates/mtpfs/src/backend.rs:818-831 | the request carries the true offset if and only if the operation is the wide one or the offset is below 4 GiB |
| `ReadAhead.ByteAfter4GiBIsWrong` | crates/mtpfs/src/backend.rs:818-831 | a concrete file whose byte at 4 GiB reads as its first byte |
| `MtpSession.Mtp.ReadAt` | crates/mtpfs/src/backend.rs:723-780 | the loop over cache and requests computes the read the slice law is about |
| `MtpSession.Mtp.ReadFromDevice` | crates/mtpfs/src/backend.rs:784-815 | the same for one request and the byte it holds back |
| `MtpSession.Mtp.SendObjectStream` | crates/mtpfs/src/backend.rs:954-989 | the same for the two requests of a send, with the cache drop after each answer |
| `MtpSession.Mtp.RenameObject` | crates/mtpfs/src/backend.rs:908-1061 | the same for a request that changes the phone: an answer drops the cache, no answer keeps it |
| `Listing.FastEqualsSlowIff` | crates/mtpfs/src/backend.rs:604-713 | for a phone that describes the same children both ways, the two listings are equal if and only if every child has a name and a size below 4 GiB |
| `Listing.BigFileListsTwoWays` | crates/mtpfs/src/backend.rs:604-713 | a concrete one: the fast way gives a file of 4 GiB its size, and the older way the largest its field holds |
| `Listing.FastListsChildren` | crates/mtpfs/src/backend.rs:604-663 | three property lists, with the folder itself anywhere in them or not, give exactly the children in the phone's order, and fault exactly when one has no name |
| `Listing.ListIsOneAnswer` | crates/mtpfs/src/backend.rs:579-597 | `list` gives the same entries whichever way it takes, also after a fault turned the fast way off |
| `Listing.FoldGivesChildren` | crates/mtpfs/src/backend.rs:309-652 | the folded answers without the folder are one record for each child |
| `Listing.DropKeepsOthers` | crates/mtpfs/src/backend.rs:309-314 | dropping the folder's record is folding the entries that are not about it |
| `Listing.Lister.List` | crates/mtpfs/src/backend.rs:579-597 | takes the fast way while it works, and turns it off for good at its first fault |
| `Listing.Lister.ListOneAtATime` | crates/mtpfs/src/backend.rs:670-713 | the loop lists each object whose answer parses, and stops at a request that fails |
| `Framing.DataPhaseEndsOnce` | crates/mtp-session/src/lib.rs:634-714 | the writes join to the container, every write before the last payload write is whole packets, and the phone sees exactly one short packet, the last, of no bytes if and only if the container is a multiple of the packet (section 5.8.3 of USB 2.0) |
| `Framing.NormalisedIsSound` | crates/mtp-session/src/lib.rs:115-133 | every configuration becomes a sound one, a sound one is left alone, and a chunk loses less than a packet |
| `Framing.ReadAnswerUndoesBuild` | crates/mtp-session/src/lib.rs:722-829 | a data container cut into full reads and then a response give back exactly the payload, code and parameters, within the round bound |
| `Framing.NeverShort` | crates/mtp-session/src/lib.rs:735-815 | for any script of transfers, success after a data phase means at least the declared bytes came, and the payload is the joined transfers without the header |
| `Framing.ReadAnswerUndoesResponse` | crates/mtp-session/src/lib.rs:722-829 | an answer with no data phase reads as its code and parameters |
| `Framing.RoundsAreEnough` | crates/mtp-session/src/lib.rs:760-775 | the rounds of full reads reach every declared length, so the bound never ends an honest answer |
| `Session.Session.constructor` | crates/mtp-session/src/lib.rs:508-531 | a session keeps the normalised configuration, and that is a sound one |
| `Session.Session.OperationSending` | crates/mtp-session/src/lib.rs:634-714 | success means exactly the planned writes; with an honest reader of enough bytes and no write fault nothing but the phone's answer decides, so `size / chunk + 4` rounds never cut a send; a payload too large writes nothing; a failure leaves nothing, the plan broken off after whole chunks, or all of it |
| `Session.BrokenOffShowsNoEnd` | crates/mtp-session/src/lib.rs:634-714 | a plan broken off before the payload is complete has shown the phone full packets only, so no part of a file passes for a whole one (section 5.8.3 of USB 2.0) |
| `Session.Session.SendRest` | crates/mtp-session/src/lib.rs:667-679 | whole chunks stay whole whatever pieces the reader gives, and the payload is what it gave |
| `Session.Session.AnswerWithData` | crates/mtp-session/src/lib.rs:744-803 | the loop over transfers computes the answer the receive laws are about |
| `Session.Session.Operation` | crates/mtp-session/src/lib.rs:571-588 | one command with the next transaction number, and then the answer |
| `Session.Session.NextTransaction` | crates/mtp-session/src/lib.rs:832-836 | numbers go up by one and wrap at 32 bits |
| `Session.Source.ReadExact` | crates/mtp-session/src/lib.rs:987-1019 | fills the buffer through interruptions and short reads, or reports less than was wanted |
| `Container.ParseUndoesLayout` | crates/ptp-proto/src/lib.rs:201-226 | a container parses back to its kind, code, number and payload, whatever follows it |
| `Container.ParseAcceptsOnlyLayouts` | crates/ptp-proto/src/lib.rs:176-226 | and nothing else parses: a parsed buffer starts with the layout of what came out |
| `Container.ParametersUndoParamBytes` | crates/ptp-proto/src/lib.rs:237-245 | parameters read back, and a part of a word at the end is ignored |
| `Container.Build` | crates/ptp-proto/src/lib.rs:362-373 | the layout of the container, or the size that its length field cannot hold |
| `Container.BuildCommand` | crates/ptp-proto/src/lib.rs:402-413 | at most the first five parameters, in order |
| `Container.BuildDataHeader` | crates/ptp-proto/src/lib.rs:383-396 | a header that counts itself and the payload, or the size that does not fit |
| `Reader.StringRoundTrip` | crates/ptp-proto/src/lib.rs:269-492 | a well-formed UTF-16 name reads back as its longest prefix of at most 254 units that splits no surrogate pair (section 2 of RFC 2781) |
| `Reader.CutIsLongest` | crates/ptp-proto/src/lib.rs:269-285 | no longer prefix of at most 254 units is text |
| `Reader.PrefixIsTextIff` | crates/ptp-proto/src/lib.rs:269-285 | a prefix of text is text if and only if it does not end between the halves of a pair |
| `Reader.PushString` | crates/ptp-proto/src/lib.rs:269-292 | the loop appends the counted, terminated bytes of the cut name |
| `Reader.Cursor.ReadString` | crates/ptp-proto/src/lib.rs:475-492 | reads the counted string where it stands and moves past it, or faults |
| `ObjectInfo.ParseUndoesBuild` | crates/ptp-proto/src/lib.rs:665-759 | the dataset a send announces parses back to its storage, folder, size, format, kind and cut name, whatever follows it |
| `ObjectInfo.Parse` | crates/ptp-proto/src/lib.rs:716-759 | the reader's steps compute the parse of the round trip |
| `ObjectInfo.BuildForSend` | crates/ptp-proto/src/lib.rs:665-708 | the pushes compute the dataset of the round trip |
| `PropList.ParseUndoesEncoding` | crates/ptp-proto/src/lib.rs:1213-1252 | every list of entries, of any mix of data types, parses back whatever follows it |
| `PropList.ListFitsItsBytes` | crates/ptp-proto/src/lib.rs:1213-1252 | success gives exactly the declared count, and 9 bytes for each entry were there, so the work is bounded by the input and not by the phone's count |
| `PropList.Parse` | crates/ptp-proto/src/lib.rs:1213-1252 | the loop computes the parse of the round trip on any bytes |
| `Records.Fold` | crates/ptp-proto/src/lib.rs:1258-1287 | updating records in place gives one record for each handle, in order of first appearance |
| `Records.LastWriteWins` | crates/ptp-proto/src/lib.rs:1258-1287 | a field holds what the last entry for it says |
| `Records.FirstSeenDistinct` | crates/ptp-proto/src/lib.rs:1258-1287 | no handle has two records, and none that was named has none |
| `Records.UnwrittenStaysBlank` | crates/ptp-proto/src/lib.rs:1258-1287 | a field no entry names stays at its default |
| `Descriptor.ParseGivesOwnedEndpoints` | crates/usb-freebsd/src/descriptor.rs:208-295 | any concatenation of well-formed descriptors parses to its interfaces with the endpoints that follow each, whatever else stands between or after (sections 9.6.3, 9.6.5 and 9.6.6 of USB 2.0) |
| `Descriptor.EndpointsGoToNearestInterface` | crates/usb-freebsd/src/descriptor.rs:232-290 | an endpoint goes to the nearest interface before it, and one before every interface is a fault |
| `Descriptor.OthersChangeNothing` | crates/usb-freebsd/src/descriptor.rs:232-290 | class and vendor descriptors, wherever they stand, change nothing |
| `Descriptor.Parse` | crates/usb-freebsd/src/descriptor.rs:208-295 | on any bytes the loop ends, stays in bounds and gives the parse of the specification |
| `Descriptor.EndpointsShareOneInterface` | crates/usb-freebsd/src/descriptor.rs:349-407 | both bulk endpoints come from the one interface the search names, each the first of its direction, and the search fails exactly when that interface lacks one |
| `Descriptor.FindWithNames` | crates/usb-freebsd/src/descriptor.rs:349-373 | the still image interface first, and else the first vendor interface that names itself MTP |

## Left out

- Lost answers after work done, handles given out twice, and changes the phone makes by itself: assumptions, named above.
- Two writers of one path, and renames onto or removal of a folder that holds objects: the code makes no claim there.
- The aside name of a name longer than 254 units, which the string cut would shorten again.
- Concurrency: the mount runs in one thread, so callbacks are whole steps.
- `MtpSession` uses the listing of `Device` and not `Listing.Lister`: the two meet at the entries, not at the bytes of the answers.
- `Session` and `MtpSession` are joined by the store of the phone and not by its bytes on the wire.
- The terminating packet of no bytes on the receive side, when a container is a multiple of the read buffer: transfers are as the repository's own fake device gives them.
- `getattr`, the filling of a directory buffer, `statfs`, `utimens`, `chmod` and `chown`: they format or accept.
- `DeviceCapabilities::parse`, `DeviceInfo::parse`, `StorageInfo::parse` and the array readers: the same reading shape as the parsers that are modelled.
- `open_session_or_repair`, `drain`, `recover`, time limits and retries: waiting and repair, with no claim about data.
- Settings, argument splitting, `mtpprobe`, the foreign function layer and the log text.
- Path text beyond `/` and `.`: bytes that are not UTF-8 are replaced before the callbacks see them.
- The u64 addition `offset + size` of a write, which cannot overflow for offsets the kernel passes.
- ReadAhead.ReadAtIsSlice: an answer of no bytes ends the read early in the source too, so the whole slice is promised only when no answer is empty.
- RunLaws.ReadSeesWrites: a read of a spool is one call on the disk, which may give fewer bytes; the source passes them on.
