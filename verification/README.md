# fsutil in Dafny

fsutil sends a directory tree to a receiver that already holds an older one: the sender walks its
tree and streams one STAT per entry, the receiver merges that stream with a walk of its own tree,
applies the differences, and asks for the file contents it lacks. This project models that engine
and proves that its stages fit together: what the validators admit can be replayed, unless it puts
something other than a directory at the root, replaying it turns the destination into the source, and
the two-sided protocol that carries the contents always ends with all of them in place.

`dafny verify dfyconfig.toml` checks everything.

## How the files correspond to the system

| file | part of fsutil |
|---|---|
| Bytes, Paths, Stats | byte strings, `path/filepath`, the walk order of `validator.go`, `Stat` and its mode bits |
| Validator | the order validator: a stack with binary search, against a definition of a pre-order walk |
| Disk, DiskWriter | the destination as a finite tree of nodes with "." for its root; applying one change to it |
| Diff, Sync, SyncExact, Overlay, SyncAgrees, Update | the two-stream merge with its `rmdir` suppression; the replay theorem; which streams can be replayed; merge mode, requests, order; what the replay leaves in terms of stats and modes; diff and writer run together |
| RootReplay, RootHandles | the same replay through the writer that opens parent directories first, and from a stack of open ones |
| Transfer, TransferInvariant, TransferSteps, TransferProgress, TransferRuns, TransferRequests | the protocol of `send.go` and `receive.go` as a step system over all goroutines, its invariant, its measure, what every run does, and when a request is refused |
| Wire, StatCodec, PacketCodec, StatReading, PacketReading | varints, the backward marshallers, the size functions and the parsers; what the bytes mean by the schema |
| Truncation, Buffer | encodings that were cut off; the chunked buffer and the metadata file |
| Roots, RootCache, Recency, RootStack | directory handles; the reference-counted LRU and its order; the stack of open ancestors |
| Hardlinks | inode naming, link re-rooting, link validation |
| Metadata | the metadata-only replay with its parent stack |
| Patterns, Matching, Filter, Pruning | include and exclude patterns, what their texts match, the filtered walk, and when skipping directories is sound |
| FollowLinks, LinkClosure, Dedupe | symbolic-link resolution, what it finds of all that the links lead to, and path reduction |
| EndToEnd, MetadataMode | the stages composed |

The validator, the writer, the codec, the buffer, the caches, the hard-link stages and the link
resolver are classes and loops over mutable state, as in the Go code, each proved against a
specification function whose properties are lemmas. The protocol is a state machine: one action per
atomic step of one goroutine, both bounded streams included, so statements over runs cover every
interleaving. The format of the messages is that of the Protocol Buffers Encoding specification,
sections "Base 128 Varints", "Length-Delimited Records" and "Maps".

## Where the code falls short of a property

- Both validators admit an entry "." that is no directory. The writer puts it in the place of the whole
  destination (diskwriter.go:207-217), and every later change fails: `EndToEnd.RootFileIsLost` is such a
  stream, `EndToEnd.AdmittedReplays` says that this is the only way in which an admitted stream cannot be
  replayed. The root writer cannot remove its own root and fails at once (rootdiskwriter.go:212).
- Comparing contents (`DiffContent`) never finds a difference that comparing metadata does not: both entries
  of a Modify have one path, and it is that path which is opened twice (diff_containerd.go:205).
  `Diffing.ContentComparesNothing`.
- The suppression of deletes is not minimal: the directory after a removed directory ends it
  (diff_containerd.go:130-134). The plain writer does not mind. The writer that opens the parent of
  every path first (rootdiskwriter.go:97-102) fails on the redundant deletes. `RootReplay.RootReplayFails`
  is such a tree; `RootReplay.RootReplayExact` says on which pairs of walks it happens.
- Trimming strips both globs of `P/*/**` (filter.go:417-425), so the walk does not enter `P/x` and loses
  what an include pattern selects there, or what an exception to an exclude pattern re-admits.
  `Pruning.SinglePatternExact` and `Pruning.SingleExceptionExact` say exactly when, for one include pattern
  and for one exception behind one exclude pattern; with `Pruning.PruningLosesNothing` lists without the
  shape are safe.
- A link met a second time is not followed with the second remainder (followlinks.go:59-63).
  `LinkClosure.SecondRemainderLost` is such a tree; `LinkClosure.CompleteExactly` says that this is the only
  way in which something is left unfollowed, and `LinkClosure.AllFoundExactly` when a path is missed by it.
- `dedupePaths` compares with the last kept path only and its input is in byte order, not walk order, so
  its result may hold a path and one below it: `Deduping.ByteOrderIsNotMinimal`, and exactly when:
  `Deduping.MinimalExactly`.
- In metadata mode both validators accept a link whose target the metadata filter rejected, and the replay
  fails on it unless the destination has the link already: `MetadataMode.RejectedTargetFails`, and for any
  destination exactly when: `MetadataMode.ForwardedReplays`, and `MetadataMode.ForwardedMerges` in merge mode.
- In metadata mode the receiver does not count an entry `.fsutil-metadata`, the sender does
  (receive.go:267-269), so ids differ behind it and one file is asked for under the id of another:
  `MetadataMode.OtherFileAsked`, and exactly when: `MetadataMode.IdsAgreeExactly`.
- The writer asks for the content of whatever is no directory, device, pipe, symbolic or hard link
  (diskwriter.go:187-189), the file maps hold only what has no type bit at all. A socket or an irregular
  file is admitted, asked for, and refused: `EndToEnd.TransferRefused` says that this can happen exactly when
  the replay asks for such an entry.
- The frame length in the metadata file has 32 bits: `MetadataFile.MetadataRoundTrip`.

## Model

| member | source | states |
|---|---|---|
| `Paths.ComparePath` | validator.go:68-82 | The sign of the result is the walk order of the two paths, on all byte strings. |
| `Paths.BeforeIsComponentOrder` | validator.go:68-82 | The byte loop with a low separator is exactly the lexicographic order of the separator-split components. |
| `Paths.BeforeTotal` | validator.go:68-82 | The order is total and irreflexive. |
| `Paths.BeforeTransitive` | validator.go:68-82 | The order is transitive. |
| `Paths.DescendantsContiguous` | diff_containerd.go:127-135 | Whatever lies between a directory and one of its descendants is a descendant too: the descendants are one interval. |
| `Paths.CleanRelative` | validator.go:30-43 | A path passes the clean, relative and non-escaping checks if and only if all its components are proper names, or it is ".". |
| `Paths.NormalDir` | validator.go:36-40 | On a normal path the directory is the text before the last separator, "." at the top. |
| `Validation.Validator.FindParent` | validator.go:45-49 | The binary search over the stack returns the top-most open directory that is not after the given one. |
| `Validation.Validator.HandleChange` | validator.go:22-66 | Accepts a change or reports which check refused it; the stack is then moved on, left alone after a textual error, or cut back to the directories not after the parent on an order error. |
| `Validation.PathErrorExact` | validator.go:30-43 | The three textual checks in their order refuse exactly the paths that are neither proper nor ".", and tell them apart: not clean, clean and absolute, or clean and beginning with "..". |
| `Validation.StepRecognises` | validator.go:45-65 | One step accepts exactly the changes that may follow the stream so far, and the stack keeps tracking the stream. |
| `Validation.ParentStillOpen` | validator.go:45-52 | A directory that is the parent of a later path is still on the stack, so the search finds it. |
| `Validation.RunRecognises` | validator.go:22-66 | A run of the stack machine survives a stream if and only if the stream is valid. |
| `Validation.Accepts` | validator.go:22-66 | A whole stream is accepted if and only if it strictly increases, every path is clean, relative and non-escaping, and every parent came earlier as a directory. |
| `Disk.FileSystem.RemoveAll` | diskwriter.go:113-115 | Removes the path and all below it; fails only on a missing path behind an obstruction. |
| `Disk.FileSystem.Rename` | diskwriter.go:214-216 | Succeeds exactly on a free name, file over file, or directory over empty directory, with the parent present. |
| `DiskWriting.DiskWriter.HandleChange` | diskwriter.go:86-228 | Either fails and leaves the tree and the requests as they were, or produces exactly the tree and the requests that the specification of one change gives, the root included, whose temporary name is outside the tree; the tree stays a tree. |
| `DiskWriting.ApplyKeepsTree` | diskwriter.go:86-228 | Whatever one change does to a tree, every node still has all its ancestors, as directories. |
| `DiskWriting.ApplyMeaning` | diskwriter.go:86-228 | What one change does: a Delete takes the path and all below it, and fails only behind a file; anything else fails exactly if a Modify does not find its path, an Add the directory that holds it, or a link its target, and otherwise gives the path its stat, removes what was below it unless it is a directory, and changes nothing else. |
| `DiskWriting.DiskWriter.CreateNode` | diskwriter.go:162-205 | The node switch: what is created under the temporary or final name, and when it fails. |
| `DiskWriting.DiskWriter.SwapIn` | diskwriter.go:207-217 | Removing a tree of the other kind and renaming gives the replaced tree. |
| `Diffing.DoubleWalkDiff` | diff_containerd.go:63-161 | The loop over two channels with one entry of each in hand emits exactly the merge of the two walks: nothing is dropped when a channel closes. |
| `Diffing.TakeTurn` | diff_containerd.go:109-155 | One round of the switch: what is emitted, the new suppression prefix and which heads are used up. |
| `Diffing.CompareFiles` | diff_containerd.go:186-206 | Two entries count as the same exactly when something is compared, their stats agree (mode, owner, device numbers and link name, and size and time unless directories) and, where contents are compared, what is read agrees. |
| `Diffing.CompareFileContent` | diff_containerd.go:208-239 | Read chunk by chunk, two files are found the same exactly when their bytes are. |
| `Diffing.ContentComparesNothing` | diff_containerd.go:205 | Between any two walks the diff that compares contents emits what the one that compares metadata emits. |
| `Syncing.AddKeepsInv` | diff_containerd.go:118-123 | After an Add the tree, the rest of both walks and the suppression prefix are again in step. |
| `Syncing.DeleteKeepsInv` | diff_containerd.go:124-135 | The same after an emitted Delete, including redundant ones. |
| `Syncing.SkipKeepsInv` | diff_containerd.go:125-129 | The same after a suppressed Delete: the path is already gone from the tree. |
| `Syncing.PutKeepsInv` | diff_containerd.go:136-155 | The same after a Modify, including a directory that becomes a file. |
| `Syncing.KeepKeepsInv` | diff_containerd.go:136-151 | The same after a Modify that the comparison judges no change. |
| `Syncing.Replay` | diff_containerd.go:83-157 | From any state of the merge, replaying what is still emitted succeeds and settles the tree. |
| `Syncing.SyncTheorem` | diff_containerd.go:63-161 | Replaying the difference of a tree and a stream with its parents, whose links that have to be made find their targets and whose "." is a directory, never fails and ends with exactly the stream's paths below the root; each node is the old one where the comparison found them equal and the stream's otherwise. |
| `SyncingExactly.SyncExactly` | diff_containerd.go:63-161 | Those two conditions are exact: the replay succeeds and leaves a directory at the root if and only if they hold. |
| `SyncingExactly.LinkLost` | diskwriter.go:182-185 | From any state of the merge: if a link that has to be made has no target, neither in the tree nor still to come before it, the replay fails. |
| `SyncingExactly.RootLost` | diskwriter.go:207-217 | From any state of the merge and on any tree: with an entry "." that is no directory the replay fails or leaves nothing but that entry. |
| `SyncingExactly.FeedExactly` | diff_containerd.go:63-161 | A stream that links to earlier files only is replayed if and only if its "." is no other than a directory. |
| `SyncingAgrees.SyncAgrees` | diff_containerd.go:186-206 | After the replay the node at every path of the stream agrees with its filtered stat in mode, owner, device numbers and link name, and in size and time if it is no directory; what agreed before is the node it was, everything else is new. |
| `SyncingAgrees.LeftAloneExactly` | diff_containerd.go:136-155 | The diff has a change at a path of the stream exactly if the tree does not have that entry already, or the stream repeats it. |
| `SyncingAgrees.NothingCompared` | diff_containerd.go:187-189 | When nothing is compared every entry is touched, written anew and, if it has a content, asked for. |
| `SyncingAgrees.MetadataCompared` | diff_containerd.go:201-204 | When metadata, or contents, are compared a node whose stat agrees is kept, touched by no change, and not asked for. |
| `Overlaying.MergeModeOverlays` | receive.go:213-217 | With an empty lower walk the result is the overlay: the stream's node where it has the path, otherwise the old node, unchanged, if and only if every ancestor in the stream is a directory. |
| `Overlaying.MergeModeExactly` | receive.go:213-217 | In merge mode a stream is replayed if and only if the target of every link is an earlier file of it, or an old file that it neither replaces by a directory nor buries under a file, and its "." is no other than a directory. |
| `SyncingAgrees.OverlayAgrees` | receive.go:213-217 | In merge mode, too, every path of the stream ends with a node that agrees with its filtered stat. |
| `Overlaying.RequestsExact` | diskwriter.go:219-228 | The contents asked for are exactly the regular files the lower side does not have, once each and in walk order. |
| `SyncingAgrees.RegularExactly` | diskwriter.go:165-189 | The writer asks for a content exactly where the mode has no type bit and there is no link name, save for sockets, irregular files and character devices without the device bit. |
| `SyncingAgrees.AskedForExactly` | diskwriter.go:219-228 | Of a stream without those, exactly the files are asked for that have a content and that the tree does not have already. |
| `SyncingAgrees.AskedForInMerge` | receive.go:213-217 | In merge mode exactly the files that have a content are asked for. |
| `Overlaying.ChangesIncrease` | diff_containerd.go:83-157 | Between two tree walks the emitted paths strictly increase. |
| `Overlaying.NoChangeFails` | diskwriter.go:137-148 | At every point of the replay the next Modify finds its path, the next Add or Modify its parent directory, the next link its target, and no Delete is obstructed. |
| `Updating.ApplyChanges` | diskwriter.go:86-228 | A list of changes goes through the writer one by one: all of it succeeds exactly when the specification does, with its tree and its requests; the tree stays a tree even if one fails. |
| `Updating.Update` | receive.go:213-225 | Walk, diff and writer run together: it works and leaves a directory at the root if and only if the links to be made have targets and the stream has no other entry "."; then the tree ends with exactly the stream's paths, each node the old one where found equal and the stream's otherwise; the contents asked for are the missing regular files in order. |
| `Updating.TempIsTemporary` | diskwriter.go:157-160 | Any suffix that makes an unused name gives the writer a temporary name next to the path. |
| `Updating.FreeNamesExist` | diskwriter.go:157-160 | Such a suffix exists for every path and tree. |
| `Updating.MergeInto` | receive.go:213-217 | The same in merge mode, where an old file may be a target, the stream is laid over the old tree, and what it does not name or cover stays unchanged. |
| `RootReplay.RootReplayExact` | rootdiskwriter.go:98-114 | The writer that opens the parent before every change and cannot replace its root replays a diff successfully if and only if the plain writer does and the two walks do not stumble (no removed directory with something below it is met while a suppression is open), and then ends like it. |
| `RootReplay.RedundantExactly` | diff_containerd.go:127-135 | The diff emits a change below an earlier Delete exactly when the two walks stumble. |
| `RootReplay.StumblesExactly` | diff_containerd.go:83-157 | The same for what is still emitted at any state of the merge, whatever is being suppressed. |
| `RootHandles.StackIsLookup` | rootstack.go:26-52 | For any list of changes, working from the stack of open directories, where what is open is not looked up again, gives what looking up every parent in the tree of the moment gives. |
| `RootHandles.SeekIsLookup` | rootstack.go:31-51 | Popping down to a directory above and opening from there succeeds exactly when the directory is in the tree now. |
| `RootHandles.HeldStays` | rootdiskwriter.go:97-114 | No change touches a directory that is held open for it. |
| `RootHandles.StackReplayExact` | rootdiskwriter.go:97-217 | The replay of a diff from the stack of open directories succeeds exactly when the plain one does and the walks do not stumble, and then ends like it. |
| `RootReplay.RedundantMeaning` | diff_containerd.go:127-135 | The recursive test for redundant changes finds exactly a change below a given path or below an earlier Delete. |
| `RootReplay.AdjacentRemovals` | diff_containerd.go:130-134 | The directory after a removed directory ends the suppression: its contents are deleted one by one. |
| `RootReplay.RootReplayFails` | rootdiskwriter.go:98-114 | A concrete tree with two adjacent removed directories on which the plain writer succeeds and the one that opens parents fails. |
| `TransferInvariant.InitInv` | send.go:29-39 | The invariant holds when both sides start. |
| `TransferSteps.WalkSendKeeps` | send.go:149-183 | Sending a STAT keeps the invariant. |
| `TransferSteps.RequestIsKnown` | send.go:123-134 | The id of a request in front of the sender is in its file map, under the path of that entry. |
| `TransferSteps.LoopReceiveRequestKeeps` | send.go:98-104 | Taking a REQ keeps the invariant: the id leaves the file map for good. |
| `TransferSteps.LoopReplyKeeps` | send.go:105-107 | When the sender answers FIN nothing else is left in its stream. |
| `TransferSteps.WorkerTakeKeeps` | send.go:69-83 | A worker taking a request from the bounded pipeline keeps the invariant. |
| `TransferSteps.WorkerChunkKeeps` | send.go:196-206 | Sending a chunk keeps the invariant: what is written and what is in flight make up the first bytes of the content. |
| `TransferSteps.WorkerEofKeeps` | send.go:136-147 | The empty DATA goes out after the whole content and is the last of its id. |
| `TransferSteps.StatInFront` | receive.go:251-291 | A STAT in front of the receiver is the entry it counts next, or the end of the walk. |
| `TransferSteps.DataInFront` | receive.go:326-341 | DATA in front of the receiver belongs to an open pipe of the entry with that index. |
| `TransferSteps.IntakeDataKeeps` | receive.go:326-341 | Writing DATA to its pipe keeps the invariant. |
| `TransferSteps.IntakeEofKeeps` | receive.go:332-336 | Closing a pipe on the empty DATA keeps the invariant. |
| `TransferSteps.NextEntry` | receive.go:125-176 | The entry the diff takes is the next one of the source: the bounded channels keep order and drop nothing. |
| `TransferSteps.DiffFinKeeps` | receive.go:221-224 | When the diff sends FIN every request has been answered. |
| `TransferSteps.TaskRegisterKeeps` | receive.go:411-424 | Registering the pipe before the request is sent keeps the invariant. |
| `TransferSteps.TaskRequestKeeps` | receive.go:425-427 | Sending the REQ keeps the invariant: each id is asked for once. |
| `TransferSteps.TaskFinishKeeps` | receive.go:428-435 | Removing a closed pipe keeps the invariant. |
| `TransferSteps.StepKeeps` | receive.go:178-365 | Every step of every goroutine on both sides keeps the invariant. |
| `TransferProgress.StepLowers` | send.go:56-112 | Every step lowers one natural-number measure of items, bytes, packets and goroutines. |
| `TransferProgress.StuckIsTerminal` | receive.go:178-365 | A state in which no goroutine can step is the end of the transfer: bounded channels never deadlock. |
| `TransferRuns.PrefixSafety` | receive.go:411-436 | In every state of every run the bytes written for an entry are a prefix of its content, nothing is written for an entry not asked for, and the content is complete once the pipe is closed. |
| `TransferRuns.IdSafety` | send.go:123-134 | In every state of every run neither side has met an id it does not know, no id is asked for twice, a REQ in flight names the same regular entry on both sides with its pipe open, and the empty DATA of an id is its last. |
| `TransferRuns.AskedIsRegular` | receive.go:284-289 | Only entries that pass fileCanRequestData are ever asked for. |
| `Stats.CanRequestExactly` | send.go:185-189 | A content can be asked for exactly when the mode and the mask of all type bits have no bit in common. |
| `TransferRuns.WrittenOnlyAtSource` | receive.go:326-341 | In no state of any run is anything written under a path that the source does not have. |
| `TransferRuns.EntriesInOrder` | receive.go:125-176 | In every state of every run the entries between the receive loop and the diff are the source's from those taken to those received, in order. |
| `TransferRuns.RunsAreBounded` | send.go:56-83 | In every state of every run no queue holds more than its capacity, and there are four workers. |
| `TransferRuns.RunsAreFinite` | send.go:56-112 | Every run, in any interleaving, has at most 20 steps per entry, 2 per content byte and 18 more. |
| `TransferRuns.RunsEndComplete` | receive.go:342-351 | A run cannot go on if and only if both FINs are exchanged and everything has returned; then every requested content is complete and no other is written. |
| `TransferRuns.RunsCanComplete` | receive.go:178-365 | From every state of every run the transfer can be brought to its end. |
| `TransferRuns.RunAskingFor` | receive.go:178-365 | For every set of regular entries some run ends having asked for exactly those. |
| `TransferRequests.FreeIsRun` | receive.go:411-424 | A run whose diff may ask for anything, but asks for regular entries only, is one of the runs above. |
| `TransferRequests.RefusedExactly` | receive.go:411-417 | For any set of entries to ask for, some run asking for exactly those ends in "invalid file request" if and only if one of them is not regular. |
| `Wire.EncodeVarint` | types/stat_vtproto.pb.go:130-211 | The byte loop writes exactly the base-128 varint in front of the offset and nothing else (Encoding specification of Protocol Buffers, section "Base 128 Varints"). |
| `Wire.VarintSize` | types/stat_vtproto.pb.go:314-360 | The bit-length formula for the size of a varint is the length of its encoding. |
| `Wire.VarintMeaning` | types/stat_vtproto.pb.go:130-211 | The bytes of a varint are the digits of the number to base 128, least significant first, with the top bit on all but the last, and no more of them than needed. |
| `Wire.TenBytes` | types/stat_vtproto.pb.go:314-360 | A 64-bit number takes ten bytes exactly when its top bit is set. |
| `Wire.ReadVarintAt` | types/stat_vtproto.pb.go:367-381 | Reading an encoded varint of any 64-bit value at any position gives the value, truncated to the width of the variable, and the position behind it. |
| `Wire.DecodeVarint` | types/stat_vtproto.pb.go:367-381 | The shift loop computes the reference decoding, with its overflow and end-of-input errors. |
| `Wire.VarintErrors` | types/stat_vtproto.pb.go:367-381 | A varint that does not end within ten bytes is an overflow, one that is cut off before that an end of input. |
| `Wire.DecodeBytes` | types/stat_vtproto.pb.go:395-422 | Reading a length-delimited field computes the reference decoding, with its length errors. |
| `Wire.LengthErrors` | types/stat_vtproto.pb.go:395-422 | A length that is negative as a Go int is invalid, one that reaches beyond the input an end of input, and any other is read. |
| `StatCodec.SizeVT` | types/stat_vtproto.pb.go:314-360 | The size is the length of the encoding under every iteration order of the xattr map. |
| `StatCodec.MarshalToSizedBuffer` | types/stat_vtproto.pb.go:130-211 | The backward writer fills exactly the last bytes of the window with the encoding under some map order, and touches nothing else. |
| `StatCodec.MarshalMap` | types/stat_vtproto.pb.go:142-160 | The map loop writes one entry per key, in the order the keys are visited, each measured by how far the index moved. |
| `StatCodec.MarshalVT` | types/stat_vtproto.pb.go:112-123 | A buffer of the computed size is filled completely, with the message that the schema prescribes, the map in some order. |
| `StatCodec.StatIsMessage` | types/stat.proto:9-21 | An encoding is the message of the schema: each field that is not zero or empty under its number, integers as their residues modulo 2^64, and each map entry as a message of its key and its value. |
| `StatCodec.UnmarshalEntry` | types/stat_vtproto.pb.go:617-715 | The inner loop over one map entry computes the reference reading: the last key and value win, and the wire types inside an entry are not looked at. |
| `StatCodec.UnmarshalVT` | types/stat_vtproto.pb.go:362-737 | The parsing loop computes the reference reading of a message, merging into the message it starts from. |
| `StatCodec.RoundTrip` | types/stat_vtproto.pb.go:362-737 | Parsing an encoding gives the message back, whatever order the map was written in, negative 64-bit fields included. |
| `StatReading.AnyMessage` | types/stat_vtproto.pb.go:362-737 | Any message of the schema, its fields in any order and repeated at will, is read one field after the other into the message there was: the last one of a kind stands, map entries add up, 32-bit numbers keep their low bits, and signed ones are the residue with the right sign. |
| `StatReading.BadMessage` | types/stat_vtproto.pb.go:382-394 | Behind any message of the schema a bad tag is reported, whatever follows: the end of a group, an illegal field number, or a field of another wire type. |
| `StatCodec.EncodingInjective` | types/stat_vtproto.pb.go:130-211 | No two messages share an encoding, whatever the map orders. |
| `PacketCodec.SizeVT` | types/wire_vtproto.pb.go:217-239 | The size of a packet, nested stat included, is the length of its encoding. |
| `PacketCodec.MarshalToSizedBuffer` | types/wire_vtproto.pb.go:93-133 | The backward writer fills exactly the last bytes of the buffer with the encoding. |
| `PacketCodec.UnmarshalVT` | types/wire_vtproto.pb.go:241-399 | The parsing loop computes the reference reading, merging a nested stat into the one already there. |
| `PacketCodec.RoundTrip` | types/wire_vtproto.pb.go:201-207 | Whatever was received before, resetting the packet and parsing an encoding gives the packet back; an absent and an empty nested stat stay different. |
| `PacketCodec.PacketIsMessage` | types/wire.proto:10-23 | An encoding of a packet is the message of the schema: the kind and the id as numbers, the stat, if there is one, as a message of its own, and the data. |
| `PacketReading.AnyPacket` | types/wire_vtproto.pb.go:241-399 | Any packet of the schema, its fields in any order and repeated at will, is read into the packet there was: the last number and the last data stand, nested stats are merged. |
| `PacketReading.BadPacket` | types/wire_vtproto.pb.go:258-280 | Behind any packet of the schema a bad tag is reported likewise. |
| `MetadataFile.Buffer.Alloc` | buffer.go:13-33 | Hands out n bytes that were not handed out before; what was handed out stays where it is and unchanged. |
| `MetadataFile.NeverTwice` | buffer.go:13-33 | Two slices handed out at different times never overlap. |
| `MetadataFile.Buffer.WriteTo` | buffer.go:35-43 | Writes the chunks in order: the bytes handed out, in order. |
| `MetadataFile.AppendFrame` | receive.go:270-276 | One frame: the little-endian size and an encoding of the stat, behind what is there. |
| `MetadataFile.WriteMetadata` | receive.go:381-409 | The metadata file is the in-order concatenation of the frames. |
| `MetadataFile.LittleEndianMeaning` | receive.go:272 | The four bytes of a frame are the length to base 256, least significant byte first, modulo 2^32. |
| `Truncation.TruncationShows` | types/stat_vtproto.pb.go:362-737 | An encoding that was cut off anywhere is never read as the message it was an encoding of. |
| `MetadataFile.MetadataRoundTrip` | receive.go:270-276 | Reading the frames of the file gives the received stats back, in order, if and only if each of them encodes to less than four gibibytes. |
| `MetadataFile.OverlongFrame` | receive.go:270-273 | A stat of four gibibytes or more is not read back: its length is cut to 32 bits. |
| `Roots.CleanIsCleaned` | rootdiskwriter.go:280-285 | A cleaned path has only proper names as components, or starts with one that leads nowhere inside the root. |
| `RootCaching.RootCache.constructor` | rootcache.go:40-51 | A fresh cache holds the base entry only; a size of zero or less means 128. |
| `RootCaching.RootCache.Get` | rootcache.go:53-77 | A lease is given if and only if the cache is open and the parent of the path resolves, its handle is on the directory that uncached resolution reaches, and the directories on the way have been moved to the front of the list, the last one first. |
| `RootCaching.RootCache.GetDirLocked` | rootcache.go:118-155 | The walk over cached prefixes reaches what component-by-component resolution reaches, and leaves the cache within its size even when it evicts its own ancestors. |
| `RootCaching.RootCache.EvictLocked` | rootcache.go:163-178 | Evicts from the back of the list until the size fits; counts and handles stay consistent. |
| `RootCaching.RootCache.Touch` | rootcache.go:157-161 | The entry moves to the front of the list, the others keep their order. |
| `RootCaching.Lease.Release` | rootcache.go:104-116 | Gives a handle back once; a second call does nothing. |
| `RootCaching.RootCache.Close` | rootcache.go:79-102 | Empties map and list but for ".", closing what is not leased. |
| `RootCaching.HeldIsOpen` | rootcache.go:53-116 | The handle of a held lease is open and denotes the directory of its path. |
| `RootCaching.ClosedAtMostOnce` | rootcache.go:180-188 | No handle is closed twice and the base handle never. |
| `RootCaching.NothingLeaks` | rootcache.go:79-116 | After Close and the last Release every handle the cache opened has been closed, once. |
| `RootCaching.Session` | rootcache.go:53-188 | All of this over any sequence of get, Release and Close; and until it is closed the cache holds the most recently used directories, as many as fit, in order of use. |
| `Recency.HoldsMostRecent` | rootcache.go:157-178 | Moving what is used to the front and dropping what no longer fits keeps exactly the most recently used, whatever is used. |
| `RootCaching.ShapeTouch` | rootcache.go:157-161 | Moving an entry to the front keeps map and list in agreement. |
| `RootCaching.ShapeDrop` | rootcache.go:163-178 | Dropping an entry from both keeps them in agreement. |
| `RootStacking.StackRelMeaning` | rootstack.go:71-84 | A relative path exists exactly for a proper descendant and leads from the base to it. |
| `RootStacking.RootStack.Get` | rootstack.go:26-52 | The handle returned is open, on top of the stack, and on the directory that plain resolution reaches. There is an error exactly if resolution fails or closing a handle that has to go does; what stays on the stack is what leads to the directory. |
| `RootStacking.RootStack.Close` | rootstack.go:54-69 | Every handle but the base has been closed exactly once. |
| `RootStacking.ChainPush` | rootstack.go:36-43 | Opening the rest of the way from the top of the stack reaches what the whole path denotes. |
| `HardLinking.StatMaker.SetUnixOpt` | stat_unix.go:48-76 | The first name of an inode is remembered, later names of a shared inode link to it. |
| `HardLinking.HardlinkFilter.Visit` | hardlinks.go:65-103 | Links whose first name is missing are re-rooted at the first name present. |
| `HardLinking.Hardlinks.HandleChange` | hardlinks.go:20-51 | Accepts a link if and only if its target was seen before. |
| `HardLinking.ValidateLinks` | hardlinks.go:20-51 | A whole stream is accepted if and only if every link names an earlier file of its own. |
| `HardLinking.Pipeline` | hardlinks.go:65-103 | For any inode assignment and any filtering the three stages accept every entry, and each kept file carries the name of the first kept file of its inode. |
| `HardLinking.LinkedIffSameInode` | stat_unix.go:61-74 | Two kept files are one file in the result exactly when they share an inode. |
| `HardLinking.ShownLink` | hardlinks.go:65-103 | In the result a directory links to nothing, a symbolic link to its target, and any other file to the first kept name of its inode, unless it is that itself. |
| `HardLinking.KeptIsShown` | hardlinks.go:65-103 | Every kept entry is in the result. |
| `HardLinking.ShownIsKept` | hardlinks.go:65-103 | Nothing else is in the result. |
| `MetadataReplay.Replay` | receive.go:298-325 | The loop with its parent stack forwards exactly the copies of the reference: each accepted entry and each directory above one, in order, an accepted directory twice; a directory "." counts as above whatever follows it. |
| `MetadataReplay.PopStep` | receive.go:301-307 | What is popped does not lead to the new entry. |
| `MetadataReplay.AcceptStep` | receive.go:314-319 | An accepted entry makes needed exactly what is on the stack, and that comes last. |
| `Patterns.HitsOutside` | filter.go:237-246 | A prefix pattern that cannot reach into a directory but hits something inside hits the directory itself. |
| `Patterns.SelectsMeaning` | filter.go:217-231 | A path is selected exactly when the last pattern that hits it, or a directory above it, is no exception. |
| `Patterns.HitsMeaning` | filter.go:217-231 | A pattern hits a path exactly when it matches the path or a directory above it. |
| `Patterns.NothingSelectedInside` | filter.go:233-248 | Inside an unselected directory that no include pattern may reach nothing is selected. |
| `Patterns.EverythingSelectedInside` | filter.go:268-288 | Inside an excluded directory that no exception may reach everything is excluded. |
| `Filtering.OnlyPrefixes` | filter.go:117-138 | The flags say whether the patterns of one polarity are free of wildcards once trimmed. |
| `Matching.PlainTextMatches` | filter.go:93-122 | A text without any of the bytes that count as wildcards matches itself and nothing else. |
| `Matching.CompiledIsFaithful` | filter.go:417-425 | For a P without wildcards P matches itself, P/* what is in it, P/** what is below it, and P/*/** what is at least two levels below it. |
| `Filtering.Check` | filter.go:217-292 | The two matchers on one path: whether it is skipped, and whether the directory is not entered. |
| `Filtering.Walk` | filter.go:172-381 | The walk reports exactly the selected entries it can reach and the directories above them, each once and in walk order. |
| `Filtering.EmitStep` | filter.go:336-377 | A selected entry adds the unreported directories above it and itself, in order. |
| `Pruning.PruningLosesNothing` | filter.go:233-292 | With patterns P, P/* and P/** (P without wildcards) no wanted path lies in a directory that is not entered, so the pruned walk reports what the unpruned one does. |
| `Pruning.FilterFromTexts` | filter.go:77-148 | For a filter made from pattern texts the walk that skips directories marks what the one that enters them all marks, unless a text has the shape P/*/**. |
| `Pruning.WalkReports` | filter.go:172-381 | Then the walk reports exactly the entries whose last matching include pattern is no exception and whose last matching exclude pattern, if any, is one, and the directories above them. |
| `Pruning.ReportedInOrder` | filter.go:336-377 | What is reported strictly increases in walk order: each entry once. |
| `Pruning.StackedGlobLoses` | filter.go:417-425 | A single include pattern P/*/** makes the walk lose a path that it selects. |
| `Pruning.SinglePatternExact` | filter.go:417-425 | For a single include pattern without other wildcards, pruning changes nothing on any walk if and only if the pattern is not P/*/**. |
| `Pruning.SingleTextExact` | filter.go:417-425 | The same for the text of the pattern, with what texts match. |
| `Pruning.StackedExceptionLoses` | filter.go:268-288 | An exception !P/*/** behind an exclude pattern that hits P/c makes the walk lose a path in P/c that the exception re-admits. |
| `Pruning.ExceptionToItsBase` | filter.go:268-288 | With the excludes P and !P/*/** that happens. |
| `Pruning.SingleExceptionExact` | filter.go:268-288 | For one exception without other wildcards behind one exclude pattern, pruning changes nothing on any walk if and only if the exception is not P/*/** or the exclude pattern hits no name in P. |
| `LinkFollowing.ReadSymlink` | followlinks.go:82-135 | The targets of a path: those of the link, or of the matching links in a directory. |
| `LinkFollowing.HasWildcards` | followlinks.go:207-218 | The loop finds a *, ? or [ exactly if there is one with an even number of backslashes right before it. |
| `LinkFollowing.LinkLeads` | followlinks.go:127-133 | What the code computes for a link is where its text leads: from the directory of the link, or from the root if the text begins there, ".." goes up as far as the root, "." and empty components stay, and names go down. |
| `LinkFollowing.PlainTarget` | followlinks.go:127-133 | The target of a link whose text is a name is that name in the directory of the link. |
| `LinkFollowing.WildcardTargets` | followlinks.go:82-105 | The targets of a name with wildcards are those of the links in its directory whose names it matches. |
| `LinkFollowing.SymlinkResolver.Append` | followlinks.go:37-80 | Ends on every file system, link cycles included, with exactly the resolved set and the remainders of the reference; each link is followed once, and nothing above a resolved path is a link. |
| `LinkFollowing.StopIsSettled` | followlinks.go:45-66 | The loop stops at a relative path with no link above it. |
| `LinkFollowing.TargetsAreKnown` | followlinks.go:45-66 | Only finitely many paths can have targets, which is what makes the recursion end. |
| `LinkClosure.FollowLinks` | followlinks.go:17-30 | None exactly when the root is found; otherwise the found paths in byte order, reduced in one pass. |
| `LinkClosure.LinkBelowDirectory` | followlinks.go:37-80 | Looking up a link in a directory, whose text is a name, finds the link and that name in the same directory. |
| `LinkClosure.AppendedCloses` | followlinks.go:58-73 | A path appended is resolved as far as its first link, every link followed leads on, with the remainder it was followed with, to resolved paths, and no remainder is ever replaced. |
| `LinkClosure.FoundIsSound` | followlinks.go:37-80 | Whatever is found is where some path that the inputs lead to stops, and nothing above it is a link. |
| `LinkClosure.CompleteExactly` | followlinks.go:59-63 | Every path taken up is resolved, and followed with its own remainder through every target, if and only if no link is met with two different remainders. |
| `LinkClosure.AllFoundExactly` | followlinks.go:59-63 | Every path where something taken up stops is found if and only if each path left at a link that was followed with another remainder leads onward to found paths only. |
| `LinkClosure.FoundExactly` | followlinks.go:59-63 | If no link is met with two remainders the found paths are exactly those where what is taken up stops. |
| `LinkClosure.SecondRemainderLost` | followlinks.go:59-63 | Looking x and y up through a link l to d finds l and d/x only: d/y, which the second input leads to, is lost. |
| `LinkClosure.FollowedList` | followlinks.go:23-29 | The list returned holds only found paths, each found path is in it or below one in it, and it is minimal exactly when no found path sorts between a topmost one and one below it without being below it. |
| `Deduping.DedupePaths` | followlinks.go:221-236 | No filter if the root is among the paths, otherwise the one-pass reduction. |
| `Deduping.DedupedCovers` | followlinks.go:221-236 | Nothing is invented and what is dropped lies below something kept. |
| `Deduping.MinimalExactly` | followlinks.go:221-236 | On an ascending list of relative paths one kept path lies below another if and only if some path sorts between a topmost path and one below it without being below it. |
| `Deduping.MinimalUnlessParted` | followlinks.go:221-236 | The same by position, for any listing in which a path comes after those above it. |
| `Deduping.WalkOrderIsMinimal` | followlinks.go:221-236 | In walk order there is no such path, so the reduction is minimal. |
| `Deduping.ByteOrderIsNotMinimal` | followlinks.go:28-29 | In byte order, which the code sorts by, "a-b" stands between "a" and "a/c". |
| `EndToEnd.Admit` | receive.go:292-297 | The receiver's two validators accept a stream if and only if it is a pre-order walk whose links are resolved. |
| `EndToEnd.AdmittedIsFeed` | receive.go:292-297 | What both validators accept has its parents and the targets of its links before what needs them. |
| `EndToEnd.AdmittedReplays` | receive.go:292-297 | On any tree, in merge mode or not, an admitted stream is replayed if and only if it has no entry "." other than a directory. |
| `EndToEnd.RootFileIsLost` | diskwriter.go:207-217 | The stream of a file "." and a file "a" passes both validators, and on every tree its replay fails or destroys the tree. |
| `EndToEnd.SentIsFeed` | send.go:29-38 | Whatever a filter drops, as long as it keeps ancestors, the sender's stream has parents and link targets, and no ".". |
| `EndToEnd.FilteredIsFeed` | filter.go:172-381 | The filtered walk keeps ancestors, so filtering followed by link re-rooting gives such a stream. |
| `EndToEnd.AdmittedIsTreeStream` | receive.go:292-299 | What the order validator admits is what the metadata replay expects, "." included. |
| `EndToEnd.ForwardedIsStream` | receive.go:298-325 | Of a stream that both validators admit, metadata mode forwards one in order, with its parents, whatever the filter accepts; its paths are exactly the accepted ones and those of the directories above them. |
| `EndToEnd.ForwardedLinkable` | receive.go:298-325 | The links it has to make find their targets if and only if every accepted link has an accepted target or is in the destination already. |
| `MetadataMode.ForwardedReplays` | receive.go:298-325 | On any destination the forwarded stream is replayed if and only if every accepted link has an accepted target, or is in the destination already, and an accepted "." is a directory. |
| `MetadataMode.ForwardedMerges` | receive.go:213-217 | In merge mode the same holds with a target that the old tree has in place of a link that it has. |
| `MetadataMode.RejectedTargetExactly` | diskwriter.go:182-185 | A stream of a rejected file and an accepted link to it passes both validators, and its replay fails on exactly the destinations that do not have the link. |
| `MetadataMode.RejectedTargetFails` | diskwriter.go:182-185 | In particular on an empty one. |
| `MetadataMode.MetadataModeSyncs` | receive.go:298-325 | From an admitted stream to the destination: exactly the accepted entries and the directories above them; what was found equal is kept, except that an accepted directory is written anew. |
| `MetadataMode.TwiceForwarded` | receive.go:308-323 | An accepted directory, and nothing else, is forwarded twice. |
| `MetadataMode.SendFiles` | send.go:149-177 | The sender files every entry with content under its index in the walk. |
| `MetadataMode.RegisterFiles` | receive.go:262-290 | The receiver files an accepted entry with content under its index minus the number of ".fsutil-metadata" entries before it. |
| `MetadataMode.IdsAgreeExactly` | receive.go:266-290 | The sender knows the receiver's id of an entry, under the same path, if and only if no ".fsutil-metadata" came before it. |
| `MetadataMode.OtherFileAsked` | receive.go:266-290 | Of the files ".fsutil-metadata" and "a" the receiver asks for the second under the id that the sender has for the first. |
| `EndToEnd.DestinationBecomesSource` | receive.go:178-226 | A transfer that ran to its end leaves the destination with exactly the source's paths below its root, each node the old one where found equal and otherwise with the source's stat and, for a regular file that is no hard link, its whole content. |
| `EndToEnd.DestinationOverlaid` | receive.go:213-217 | In merge mode it leaves the source laid over the old tree, contents included; whatever of the old tree is still there is unchanged. |
| `EndToEnd.TransferExists` | receive.go:284-289 | Some run ends having asked for exactly what the replay asks for, if and only if all of that passes fileCanRequestData. |
| `EndToEnd.TransferRefused` | receive.go:411-417 | Some run that asks for what the replay asks for ends in "invalid file request", if and only if not all of that passes fileCanRequestData. |
| `EndToEnd.OrdinaryTransfer` | receive.go:411-436 | With a stream of ordinary entries no run that asks for what the replay asks for is refused, and some run ends having asked for exactly the files that the tree misses. |

## Left out

- Syncing.SyncTheorem: directory modification times, and writing through two names of one inode, are not part of the tree; a hard link is a node of its own. Two nodes that `sameFile` judges equal may still differ in what it ignores: extended attributes always, size and time for directories.
- SyncingExactly.RootLost: once the root is a symbolic link, what would be written behind it counts as obstructed; the code follows the link.
- DiskWriting.DiskWriter.HandleChange: the filter is a stat map that keeps every entry, its directory bit and its link name; the retry after a racing mkdir, notification, hashing and the synchronous data callback are left out; the temporary name is a parameter assumed unused (`Updating.FreeNamesExist`). A path with a symbolic link above it counts as obstructed, where the code follows the link; in a replay that succeeds there is none.
- Diffing.DoubleWalkDiff: what opening and reading a path gives is a function of the path; that it may fail, walk errors and cancellation are left out.
- TransferRuns.RunsEndComplete: error packets, cancellation and failing streams are left out, and each stream holds at least one packet; a file that cannot be opened counts as empty, as in the code.
- TransferRuns.PrefixSafety: what the diff asks for is any choice among the entries whose content can be asked for, so the statement covers every comparison outcome; TransferRequests has the other choices, up to the error.
- TransferRuns.IdSafety: likewise.
- StatCodec.UnmarshalVT: an unknown field is reported as unsupported instead of being kept, and one inside a map entry instead of being skipped: the library function that measures it is not part of this model. The loops that the generator repeats for each field are one method.
- StatCodec.UnmarshalEntry: unknown fields likewise.
- PacketCodec.UnmarshalVT: unknown fields likewise, and reusing the capacity of the data slice is not visible.
- MetadataFile.MetadataRoundTrip: the lengths inside a stat are Go ints.
- RootCaching.RootCache.Get: the directory tree does not change while the cache lives, no component of a path is a symbolic link, and one operation runs at a time, as under the mutex.
- RootStacking.RootStack.Get: the tree does not change, no component of a path is a symbolic link (one that leads out of the open directory but not out of the base would be refused from the one and followed from the other), and `filepath.Rel` is modelled on cleaned paths. RootHandles has the changing tree.
- RootStacking.ChainPush: no component of a path is a symbolic link.
- HardLinking.Pipeline: link counts and stat types are those of a file system: an inode with two names has a count above one and one type.
- MetadataReplay.Replay: the stream is taken without entries named `.fsutil-metadata`, which the receiver passes over.
- EndToEnd.DestinationBecomesSource: a hard link has no content of its own; stated for streams without repeated entries: for metadata mode the tree is covered by MetadataMode, but the protocol is modelled with every received entry handed to the diff.
- EndToEnd.DestinationOverlaid: likewise.
- Filtering.Walk: no Map function and no walk errors; a pattern is a text with the paths it matches and the last one that matches the path or an ancestor decides, where the external matcher evaluates patterns incrementally.
- Matching.CompiledIsFaithful: the matcher is a library outside the repository; Matching gives the meaning its documentation gives to "*", "**", "?", brackets and the backslash, byte by byte, without its rejection of malformed texts.
- Pruning.PruningLosesNothing: the other patterns of a list may be arbitrary; those that decide the flags are of the shapes P, P/* and P/**.
- LinkClosure.FollowLinks: only not-found errors are modelled.
- Real disks, device numbers, owners, timestamps, extended-attribute calls, and the Windows and BSD variants: the separator is one fixed byte.
- `copy/`, `tarwriter.go`, `util/protostream.go`, `cmd/`, `bench/`: plumbing around system calls and other formats.
- The unsafe and strict variants of the codec, pools and reflection glue: copies of what is modelled.
