# Brainard core: model and proofs

A Dafny model of the three stateful cores of the service, and of the transcript
truncation, with proofs about every run and every interleaving.
`dafny verify dfyconfig.toml` checks the whole project.

* **Attachments.** `Utf8` writes the incremental UTF-8 decoder out as a state machine
  (sections 3 and 4 of RFC 3629). `UploadStream` is the chunk loop of one upload with its
  pledge ledger. `DiskPledge` puts any number of uploads on one disk and one pledge
  counter. `BlobStore` holds the tables, the reference rules and the sweep; `BlobProtocol`
  interleaves uploads, attach-from-Brain, deletes, sweeps and room changes at the points
  where they take row locks, touch files and commit. `BlobGrace` reads off a run how long a
  closed room keeps its files; `BlobSolo` shows that one transaction alone does what the
  sequential operation does.
* **Rooms.** `Rooms` says what each mutator does to a room with its messages, `RoomRows` is
  the row updated in place, and `RoomInvariants` says what each mutator keeps. `RoomRuns`
  lets any number of callers run pre-check, lock, body and commit in any order.
  `RoomSettings` says column by column what a run's requests make of the room, and when
  each request is refused.
  `RoomPolling` is the reader, `RoomConsensus` the agreed close, `RoomSweeper` one
  background cycle.
* **Deposits and the librarian.** `Knowledge` applies a batch to the supersession graph and
  raises flags; `KnowledgeGraph` is about any sequence of deposits, and `KnowledgeEffects`
  says which deposits are accepted and what each does to every entry. `DepositLog` is the
  race between deposit calls (idempotent replay, optimistic document versions, three
  attempts); `DepositTraces` tells each call's answer from the steps it went through. `Librarian` is a run with its call budget and `LibrarianRuns` the run performed
  step by step; `Merging`, `LibrarianFacts` and `LibrarianQueue` are about what runs do to
  the library and to the queue of flags, `LibrarianCalls` about the calls a run records,
  `LibrarianFates` about the tally each item ends in and the entry it files.
* **Transcript.** `Transcript` is the head-and-tail truncation.

Imperative parts of the program are classes and methods proved against a function of the
old state; protocols are state machines whose steps are the program's lock, read, write and
commit points. PostgreSQL is taken to give row locks, a fresh snapshot per statement,
unique and foreign keys, and atomic commit and rollback.

Five findings about the program itself:

* The consensus floor being below the message cap does not make an agreed close reachable,
  although that is the reason given for the check (`app/rooms.py:472-480`). Switching off
  the owner requirement, or the owner's first message, already takes one message, so the
  members of a created debate or critique room can agree exactly when its cap is at least
  four: `RoomConsensus.CreatedAgreeIff`, with the general condition in `AgreedCloseIff`.
* A row can lose its file when an upload looks for the file between the commit and the
  unlink of a reclaim, and only then: `BlobProtocol.LosesFileIff`, with a concrete run in
  `RowWithoutFileReachable`.
* The sequence-number retry of a post (`app/rooms.py:1161-1173`) and the missing-blob retry
  of attach-from-Brain (`app/attachments.py:1426-1438`) are dead code.
* A merge that commits but whose flag cannot be resolved is counted as an error and not
  as a merge, so counts and library part. `LibrarianFacts.BalanceIff` and
  `StepHidesMergeIff` say exactly when, `RunHidesMerge` is a run that does it.
* A transcript can be reported truncated, with a notice at both ends, although not a
  character is missing: a line of exactly 20000 characters is treated as too long because
  its newline counts. `Transcript.TruncatedYetWholeIff` gives all such inputs,
  `TwoHalvesAreWhole` one.

## Model

| member | source | states |
|---|---|---|
| Utf8.EmitIsEncode | app/attachments.py:451-520 | a character completed by the decoder is exactly the standard's encoding of the value emitted |
| Utf8.RunSound | app/attachments.py:451-520 | what is accepted is the encoding of the output followed by at most three pending bytes |
| Utf8.RunEncodeAll | app/attachments.py:451-520 | every encoded text is decoded back with nothing pending |
| Utf8.DecodeIffEncoded | app/attachments.py:451-520 | round trip in both directions: decoding yields a text if and only if the bytes are its encoding |
| Utf8.RunAppend | app/attachments.py:496-520 | decoding continues across a cut at any byte, inside a character included |
| Utf8.FeedAllIsRun | app/attachments.py:496-520 | chunk-by-chunk decoding equals whole-string decoding |
| Utf8.ChunkingIrrelevant | app/attachments.py:496-520 | two ways of cutting the same bytes decode alike |
| Utf8.IncrementalDecoder.Decode | app/attachments.py:496-520 | one call advances the pending bytes; a final call refuses an unfinished character |
| UploadStream.IsMarkdownIsDecoded | app/attachments.py:451-520 | being well-formed UTF-8 without disallowed controls is decided by the decoder's run |
| UploadStream.CleanSoFarOfAppend | app/attachments.py:496-520 | judging chunks one after another judges the whole; a bad prefix stays bad |
| UploadStream.FirstDisallowedControlChar | app/attachments.py:133-146 | finds the first disallowed control character, none if and only if the text is clean |
| UploadStream.PledgeLedger.ReserveUploadBudget | app/attachments.py:214-225 | the shared counter grows by the pledge |
| UploadStream.PledgeLedger.ReleaseUploadBudget | app/attachments.py:228-242 | the shared counter shrinks, clamped at zero |
| UploadStream.PledgeLedger.AssertDiskHeadroom | app/attachments.py:315-345 | passes exactly when the floor, this write and what the other uploads have pledged fit into the free space |
| UploadStream.UploadSession.WriteChunk | app/attachments.py:348-380 | cap, then headroom, then bytes and release; a refusal changes neither file nor pledge |
| UploadStream.UploadSession.ValidateAndWrite | app/attachments.py:496-520 | exactly when each of the three refusals occurs, and what is written otherwise |
| UploadStream.UploadSession.Begin | app/attachments.py:526-552 | choosing a format makes the pledge and writes the buffered prefix |
| UploadStream.UploadSession.Chunk | app/attachments.py:522-537 | one loop iteration keeps: format, file, hash, size, pledge and decoder are those of all bytes received |
| UploadStream.UploadSession.Finish | app/attachments.py:539-558 | the end of the stream accepts only content that is valid as a whole |
| UploadStream.UploadSession.ReceiveAttachmentUpload | app/attachments.py:390-576 | given headroom, accepted if and only if the concatenation is non-empty, within the cap and PDF or clean UTF-8; format, size and bytes depend on the concatenation only; no pledge or file outlives a refusal |
| UploadStream.BadPrefix | app/attachments.py:496-520 | refusing at the first bad chunk refuses only content that is bad as a whole |
| UploadStream.MagicSpellsPdf | app/attachments.py:97 | the five magic bytes spell `%PDF-` |
| UploadStream.AllowedIff | app/attachments.py:133-146 | a text may hold tab, line feed, carriage return and whatever is no control character |
| DiskPledge.InvNext | app/attachments.py:214-242 | every step keeps: counter equals the sum of pledges, each pledge is cap minus written, granted bytes fit above the floor |
| DiskPledge.RunInv | app/attachments.py:315-380 | free space minus every granted but unwritten byte stays at or above the floor in every run |
| DiskPledge.DiskFloorSound | app/attachments.py:315-380 | for any number of uploads and any interleaving free space never drops below the floor, and no write lands below it |
| DiskPledge.NoPledgeLeaks | app/attachments.py:559-576 | when every upload has ended, or was refused before it pledged, the counter is zero |
| DiskPledge.CheckIff | app/attachments.py:315-345 | in every run a check passes exactly when the write stays within the cap and floor, write and the others' pledges fit into the free space |
| DiskPledge.CheckPasses | app/attachments.py:315-345 | a write within the upload's own pledge passes whenever floor and all pledges fit: the check is not needlessly strict |
| DiskPledge.SpaceConserved | app/attachments.py:348-380 | free space is what there was plus what was freed elsewhere minus what the uploads hold; an aborted one gives all of it back |
| DiskPledge.FileStep | app/attachments.py:559-576 | a write adds exactly the granted bytes, an abort removes the file, no other step touches it |
| DiskPledge.SoloUpload | app/attachments.py:390-576 | an upload that fits runs through from arrival to the end, keeps its file and leaves the counter as it was |
| BlobStore.EarlierCutoffProtectsMore | app/attachments.py:1102-1124 | an earlier cutoff protects every blob a later one does |
| BlobStore.ProtectedIff | app/attachments.py:1102-1124 | protected at the sweep's cutoff means needed at its clock: a document links the blob, or an attachment of it lies in a stored room that is open or was closed less than the grace period ago |
| BlobStore.AttachKeepsDbInv | app/attachments.py:1006-1032 | one more reference keeps totals, caps and references consistent |
| BlobStore.BlobKeepsDbInv | app/attachments.py:821-827 | a new blob under the ceiling keeps them consistent |
| BlobStore.ReclaimKeepsDbInv | app/attachments.py:1150-1180 | removing an unlinked blob with its leftover rows keeps them consistent |
| BlobStore.PurgeKeepsProtection | app/attachments.py:1187-1217 | reclaiming some blobs never changes whether another is protected |
| BlobStore.AttachmentStore.GetOrCreateBlob | app/attachments.py:712-827 | reuses the blob of an equal hash, else stores one if the ceiling allows; whole new tables and files |
| BlobStore.AttachmentStore.AddRoomAttachment | app/attachments.py:885-1050 | succeeds exactly for an admitted sender in an open room below its file cap with room under the ceiling, and adds exactly that reference; a refusal stores nothing |
| BlobStore.AttachmentStore.ReclaimBlobIfUnreferenced | app/attachments.py:1127-1184 | deletes a blob exactly when no document links it and no attachment of it lies in a stored room that is open or was closed after the cutoff; row, counter and file together |
| BlobStore.AttachmentStore.ReclaimEach | app/attachments.py:1211-1217 | of any candidates exactly the unprotected ones go |
| BlobStore.AttachmentStore.SweepExpiredBlobs | app/attachments.py:1187-1217 | a blob survives if and only if a document links it, or some attachment of it lies in a stored room that is open or was closed at a time `t` with `now < t + grace` |
| BlobStore.AttachmentStore.RemoveRoomRows | app/rooms.py:2496-2512 | the deleting transaction removes the room and its references and reports their hashes |
| BlobStore.AttachmentStore.ReleaseBlobsForDeletedRoom | app/attachments.py:1220-1253 | of the reported hashes only blobs nothing else protects are removed |
| BlobStore.AttachmentStore.DeleteRoom | app/rooms.py:2397-2518 | a room delete removes exactly its references, and of the blobs they held exactly those nothing needs any more |
| BlobStore.AttachmentStore.DeleteRoomAttachment | app/attachments.py:1447-1474 | removes one reference, and the blob with its file exactly when nothing needs it any more |
| BlobProtocol.AdvanceInv | app/attachments.py:712-827 | a transaction's next statement leaves true what every other one read under its locks |
| BlobProtocol.InvNext | app/attachments.py:942-1048 | every step of every transaction keeps tables, lock exclusion and locked readings |
| BlobProtocol.AccountingHolds | app/attachments.py:712-827 | in every interleaving the counter is the sum of the sizes and under the ceiling, rooms stay in their cap, no reference dangles |
| BlobProtocol.OnlyUnprotectedRemoved | app/attachments.py:1127-1184 | no step removes a blob protected at that moment, or alters a size |
| BlobProtocol.BrainAttachNeverConflicts | app/attachments.py:1373-1439 | attach-from-Brain never meets a missing blob |
| BlobProtocol.EveryRowHasFile | app/attachments.py:798-827 | if no upload looks inside a commit-to-unlink window, every blob row has its file |
| BlobProtocol.WindowLosesFile | app/attachments.py:1175-1183 | an upload that looks inside a window can always be completed into a row without a file |
| BlobProtocol.PendingInvNext | app/attachments.py:1175-1183 | a pending unlink still has its file, and is the only one for its hash |
| BlobProtocol.LosesFileIff | app/attachments.py:798-827 | after any run outside the windows, a next step can be completed into a lost file if and only if it looks inside one |
| BlobProtocol.RowWithoutFileReachable | app/attachments.py:1175-1183 | a concrete run from consistent tables ends with a row and no file |
| BlobGrace.GraceRespected | app/attachments.py:1102-1124 | in every interleaving no step taken within the grace period after a room's close removes a blob that an attachment of the room still holds |
| BlobGrace.OpenRoomsKeepTheirFiles | app/attachments.py:1102-1124 | nor does any step while the room is open |
| BlobGrace.NeededBlobStays | app/attachments.py:1127-1184 | a blob that a document links, or a room open or within its grace holds, is stored and survives the next step of whoever moves |
| BlobGrace.ClosedSince | app/rooms.py:988-994 | a room closed once is, while it is stored, open anew or closed no earlier than then |
| BlobGrace.RoomStep | app/rooms.py:988-994 | a step leaves a room's entry alone, or creates, closes or removes it |
| BlobGrace.OwnerSteps | app/attachments.py:1102-1124 | the whole effect of every step that is not a transaction's statement |
| BlobSolo.SoloUpload | app/attachments.py:712-827 | alone, an upload attaches exactly when the sequential operation does, with the same tables and files |
| BlobSolo.LoserAttaches | app/attachments.py:798-827 | an upload that lost the race for its hash goes round again and attaches to the winner's blob, if the room still admits it |
| BlobSolo.SoloReclaim | app/attachments.py:1127-1184 | alone, a reclaim removes row, counter and file exactly of a blob nothing needs |
| BlobSolo.SoloBrainAttach | app/attachments.py:1373-1439 | alone, attaching a saved document adds its reference exactly when the room admits it |
| RoomRows.RoomRow.NextSeq | app/rooms.py:909-911 | the highest number plus one, above every stored number |
| RoomRows.RoomRow.Append | app/rooms.py:955-972 | one row at the next number, counter up by one |
| RoomRows.RoomRow.PostSystem | app/rooms.py:1955-1993 | a server announcement is numbered and counted, and never checked against the cap |
| RoomRows.RoomRow.CheckAndBindSeat | app/room_seats.py:54-102 | a free seat is bound to the machine, a foreign one refused, the owner exempt |
| RoomRows.RoomRow.ConsensusGateOk | app/rooms.py:782-815 | true exactly when the floor is reached and every member objected |
| RoomRows.RoomRow.ApplyClose | app/rooms.py:988-994 | time and reason set together |
| RoomRows.RoomRow.ResolveDeadline | app/rooms.py:962-966 | a pending duration becomes a deadline |
| RoomRows.RoomRow.InsertMessageAndMaybeClose | app/rooms.py:914-985 | opening, insert and the close it triggers, as one new room value |
| RoomRows.RoomRow.PostMessage | app/rooms.py:997-1181 | the locked half of a post: refusals in order, otherwise the insert; a refusal writes nothing, and the room invariant is kept |
| RoomRows.RoomRow.Delete | app/rooms.py:1193-1286 | tombstones once, lowering the counter; text and mark are all that change; the room invariant is kept |
| RoomRows.RoomRow.CloseRoom | app/rooms.py:1294-1350 | closing is idempotent and keeps the room invariant |
| RoomRows.RoomRow.PostClosingNudge | app/rooms.py:1356-1392 | at most one nudge, only while open; keeps the room invariant |
| RoomRows.RoomRow.SwitchRoomMode | app/rooms.py:1448-1595 | refused when closed or when the floor is not below the cap, otherwise mode and announcement in one commit; keeps the room invariant |
| RoomRows.RoomRow.SetAgentUploadsAllowed | app/rooms.py:1620-1690 | the toggle and its announcement in one commit; keeps the room invariant |
| RoomRows.RoomRow.SetRequiresOwnerOpen | app/rooms.py:1722-1809 | turning the requirement off before opening starts the pending deadline; keeps the room invariant |
| RoomRows.RoomRow.SetRoomMemberSeat | app/rooms.py:1833-1929 | reassigns one seat and announces it; a stranger's seat and an unknown or inactive machine are refused; keeps the room invariant |
| RoomInvariants.CreatedSatisfiesInv | app/rooms.py:380-540 | every accepted creation satisfies the room invariant: two distinct members, no message, future deadline |
| RoomInvariants.NextSeqIsFresh | app/rooms.py:909-911 | the next number is in no stored row |
| RoomInvariants.GateGivesAgreement | app/rooms.py:818-856 | a `done` that passed the gate puts the agreement on record |
| RoomInvariants.PostKeepsInv | app/rooms.py:914-985 | a post keeps numbering, counters, cap, close fields, deadline and agreement |
| RoomInvariants.TombstoneKeepsObjections | app/rooms.py:1278-1283 | a tombstone never removes an objection from the record |
| RoomInvariants.DeleteKeepsInv | app/rooms.py:1193-1286 | a tombstone keeps the invariant; the clamp at zero is never reached |
| RoomInvariants.CloseKeepsInv | app/rooms.py:1294-1350 | closing keeps the invariant |
| RoomInvariants.BodyKeepsInv | app/rooms.py:914-985 | every mutator keeps the invariant |
| RoomInvariants.BodyRows | app/rooms.py:1974-1986 | every mutator adds one numbered row, tombstones one, or leaves the messages alone |
| RoomInvariants.BodyDeadline | app/rooms.py:1782-1788 | only an opening event touches deadline and pending duration |
| RoomRuns.DraftFitsBase | app/rooms.py:1161-1173 | what a body drafts under the lock never collides with the rows it read |
| RoomRuns.WorldInvNext | app/rooms.py:1129-1160 | every step of every caller keeps the world invariant |
| RoomRuns.EveryRunIsSerial | app/rooms.py:1129-1173 | every interleaving commits a serial history of locked bodies, each pre-checked on an earlier version |
| RoomRuns.SeqConflictUnreachable | app/rooms.py:1161-1173 | no caller ever enters the sequence-conflict retry |
| RoomRuns.HistoryFollows | app/rooms.py:1278-1283 | later versions keep earlier messages, close fields, deadline, opening and warning |
| RoomRuns.ClosesOnce | app/rooms.py:988-994 | closed is absorbing, the first winner's time and reason stand, no user message follows |
| RoomRuns.MessagesConserved | app/rooms.py:968-982 | the counter equals the untombstoned rows; live user messages never exceed the cap and stay below it while open; rows are numbered from one |
| RoomRuns.AgentNeedsOpening | app/rooms.py:1101-1104 | an agent message implies that earlier the owner had posted or the requirement was off |
| RoomRuns.AgreedCloseOnRecord | app/rooms.py:818-856 | after a member's `done` in a debate or critique room every member has an earlier objection and the floor was passed, whatever is deleted later |
| RoomRuns.DeadlineWrittenOnce | app/rooms.py:489-513 | a pending duration never coexists with a deadline or an owner post, and a written deadline never changes |
| RoomRuns.DeadlineWrittenAtOpening | app/rooms.py:962-966 | the commit that writes the deadline is the opening one and adds the pending duration to its time |
| RoomRuns.SweepNeverEarly | app/room_sweeper.py:57-99 | the sweeper never closes a room before its deadline although it does not look again under the lock |
| RoomRuns.NudgedOnce | app/rooms.py:1356-1392 | no two nudges in one run |
| RoomRuns.PostBindsSeat | app/room_seats.py:54-102 | after a machine's post the seat it used is bound to it |
| RoomRuns.OneMachinePerSeat | app/room_seats.py:54-102 | between two reassignments of a seat one machine alone posts from it |
| RoomRuns.ClockAndDeletion | app/rooms.py:2397-2518 | only the passing of time moves the clock, only a deletion removes the room |
| RoomRuns.NothingAfterDeletion | app/rooms.py:2397-2518 | once the room is deleted no caller on its way ever writes to it again |
| RoomSettings.SettingsAsAsked | app/rooms.py:1574 | in every run the mode and both switches of any version are the ones the last committed request for them asked, or those at creation |
| RoomSettings.VersionStep | app/rooms.py:1129-1160 | between two versions mode, switches and opening change exactly as the committed request asks |
| RoomSettings.BodySettings | app/rooms.py:1574 | the mode, both switches, the warning, the cap and the floor a request leaves behind, open room or not |
| RoomSettings.BodyStatus | app/rooms.py:973-994 | a room ends closed exactly when it was, or by a close, a sweep, a `done` or the message that reaches the cap; time and reason are of the request |
| RoomSettings.BodyOpens | app/rooms.py:955-966 | the owner's first message opens the room, and nothing else does |
| RoomSettings.ClosedByRequest | app/rooms.py:988-994 | in every run the commit that closes the room decides time and reason, and is a close, a sweep, a `done` or the message that reaches the cap |
| RoomSettings.CommitsIff | app/rooms.py:1129-1160 | exactly when each kind of request goes through under the lock |
| RoomSettings.UnchangedIff | app/rooms.py:1294-1392 | what does not go through is refused with the error of its first unmet demand, or changes nothing where repeating is harmless |
| RoomSettings.DeletedAfterwards | app/rooms.py:1193-1286 | a deletion leaves the message deleted and marked in its place, and every other row as it was |
| RoomSettings.PreCheckIff | app/rooms.py:1082-1114 | what a post or a sweep must satisfy before the lock |
| RoomSettings.PreCheckError | app/rooms.py:1082-1114 | which error a post meets before the lock, in order |
| RoomSettings.SoloRequest | app/rooms.py:1129-1160 | a request alone lands exactly when the pre-check passes and the body goes through, and the body's room is the next version |
| RoomSettings.CreatedIff | app/rooms.py:380-540 | a creation is accepted if and only if the two names differ, cap and floor are in range, the floor is below the cap in a debate or critique, and at most one deadline within thirty days is given |
| RoomSettings.CreatedAsAsked | app/rooms.py:489-540 | an accepted creation has the mode, the cap and floor asked for or their defaults, the requested duration pending, the requested moment as deadline, and the requested machines on their seats |
| RoomSettings.RejectedCreation | app/rooms.py:380-480 | a refused creation reports the first demand not met |
| RoomSettings.SeatAssigned | app/rooms.py:1833-1929 | after an assignment the seat is bound to exactly the machine given, or to none |
| RoomSettings.SeatAsAssigned | app/rooms.py:1833-1929 | so in every run, and the machine was active |
| RoomPolling.NewerThanIsSuffix | app/rooms.py:2143-2208 | the rows newer than a number are the suffix after it |
| RoomPolling.PollingIsGapFree | app/rooms.py:2293-2391 | a reader advancing to the highest number seen holds every message once, in order |
| RoomPolling.EveryPollerSeesAll | app/rooms.py:2293-2391 | the same for every run from creation; only text and the deletion mark may differ later |
| RoomPolling.Answering | app/rooms.py:2318-2391 | the iteration that answers: the first with something to say, or the one at the deadline |
| RoomPolling.PollMessages | app/rooms.py:2293-2391 | answers at the first reading that has something to say, or when the wait, cut to between nought and two minutes, is over: gone, not opened, or the newer messages with whether the room is open |
| RoomPolling.NewerThanIff | app/rooms.py:2143-2208 | the messages returned are exactly the stored ones numbered above the reader's number |
| RoomPolling.KeepsWaitingIff | app/rooms.py:2318-2391 | an iteration keeps waiting exactly when the room is stored, opened or without need of it, open, and holds nothing newer |
| RoomConsensus.MemberPostEffect | app/rooms.py:914-985 | a member's post below the cap leaves an open room one message longer |
| RoomConsensus.AgreedCloseReachable | app/rooms.py:818-856 | objections, fillers and `done` by members alone close the room as agreed when they fit below the cap |
| RoomConsensus.StuckForGood | app/rooms.py:973-982 | when they do not fit, no posts of anybody reach an agreed close |
| RoomConsensus.AgreedCloseIff | app/rooms.py:973-982 | the exact condition for every open debate or critique room agents may speak in |
| RoomConsensus.CreatedAgreeIff | app/rooms.py:472-480 | the members of a created gated room, unlocked by the toggle or by the owner's message, can agree if and only if the cap is at least four |
| RoomConsensus.CapOfThreeCannotAgree | app/rooms.py:472-480 | a cap of three above a floor of two passes the check at creation and can never be closed as agreed by the members |
| RoomConsensus.GatedRoomsStayReachable | app/rooms.py:1553-1563 | floor below cap and two distinct members hold in every reachable gated room |
| RoomSweeper.RoomTable.CloseExpiredRooms | app/room_sweeper.py:57-99 | exactly the expired rooms are closed, one failing room not stopping the others |
| RoomSweeper.RoomTable.WarnClosingRooms | app/room_sweeper.py:102-142 | exactly the unwarned rooms inside the window are warned |
| RoomSweeper.RoomTable.SweepOnce | app/room_sweeper.py:174-183 | closed are exactly the open rooms due at the first clock, warned exactly the open, unwarned ones due within two minutes of the second; closed rooms carry that time and the reason; exactly the needed blobs remain; a failing room or pass does not stop the others |
| RoomSweeper.CycleKeepsRooms | app/room_sweeper.py:174-183 | what a cycle does to a room keeps its invariant |
| RoomSweeper.ExpiredIsPreChecked | app/room_sweeper.py:57-99 | the scan and the sweeping close's pre-check agree on what is due |
| Knowledge.KnowledgeStore.ValidateKnowledgeReferences | app/routers/deposits.py:283-437 | accepts exactly when every project and reference is in order; otherwise lists every offending item of the first fault kind, in the fixed order of kinds |
| Knowledge.KnowledgeStore.UnknownProjects | app/routers/deposits.py:314-336 | exactly the items naming another, unregistered project |
| Knowledge.KnowledgeStore.RaiseForkFlags | app/routers/deposits.py:593-618 | one flag per other entry naming the parent |
| Knowledge.KnowledgeStore.RaiseDuplicateFlags | app/routers/deposits.py:632-654 | one flag per hint, in order |
| Knowledge.KnowledgeStore.LinkParents | app/routers/deposits.py:589-627 | for each distinct parent its forks, then active becomes superseded |
| Knowledge.KnowledgeStore.CreateEntry | app/routers/deposits.py:565-656 | one created entry with all its effects |
| Knowledge.KnowledgeStore.ApplyKnowledge | app/routers/deposits.py:527-658 | the whole batch or nothing |
| Knowledge.KnowledgeStore.CreateDeposit | app/routers/deposits.py:910-968 | a rejected deposit changes nothing, an accepted one applies its items in order |
| Knowledge.Hints | app/routers/deposits.py:506-524 | at most five distinct, active, same-namespace library entries other than the new one |
| KnowledgeGraph.HintsComplete | app/routers/deposits.py:506-524 | a ranked candidate that is active, in the namespace and no proposal is left out only when five are found |
| KnowledgeGraph.HintsRanked | app/routers/deposits.py:506-524 | hints keep the ranking's order and add nothing to it |
| KnowledgeGraph.CreatedAsAsked | app/routers/deposits.py:565-586 | a created entry has the item's namespace, parents and proposal mark, and the deposit's, the named or no project as the item says |
| KnowledgeGraph.CreatedEntries | app/routers/deposits.py:565-627 | creating an entry adds it active under its namespace and changes only the active parents it names |
| KnowledgeGraph.ForksAfterCreate | app/routers/deposits.py:593-618 | exactly the pairs the new entry forms gain a flag, once |
| KnowledgeGraph.DepositKeepsInv | app/routers/deposits.py:527-658 | a deposit keeps links, statuses, fork flags and duplicate flags sound |
| KnowledgeGraph.DepositsKeepInv | app/routers/deposits.py:527-658 | so does any sequence, rejected ones included |
| KnowledgeGraph.SupersessionIsAcyclic | app/routers/deposits.py:283-437 | no entry is its own ancestor, and a lineage is all proposals or all library entries |
| KnowledgeGraph.ActiveIff | app/routers/deposits.py:620-627 | active exactly when not retired and superseded by nothing |
| KnowledgeGraph.ForkFlagsExact | app/routers/deposits.py:591-618 | one flag per unordered pair naming a parent, raised by the later entry, even with repeated ids |
| KnowledgeGraph.EntryProjectsRegistered | app/routers/deposits.py:302-336 | every entry's project is registered, although only a deposit's own project is registered on arrival |
| KnowledgeGraph.SettledForEver | app/routers/deposits.py:540-553 | superseded and retired are terminal and links never change |
| KnowledgeGraph.DepositAcknowledged | app/routers/deposits.py:541-658 | one acknowledgment per item, in order, naming the entry created or retired |
| KnowledgeEffects.AcceptedIff | app/routers/deposits.py:283-437 | a deposit is accepted if and only if every item is in order by itself, names a known project, and retires nothing that an earlier item of the batch retired or superseded |
| KnowledgeEffects.DepositEffect | app/routers/deposits.py:527-658 | an accepted deposit leaves a stored entry retired if an item retires it, else superseded if an item names it and it was active, else unchanged |
| KnowledgeEffects.ReferencesIff | app/routers/deposits.py:338-437 | validation passes exactly when every retired entry is stored and active and every parent stored and on the item's side of the proposal boundary |
| KnowledgeEffects.ItemsApplyIff | app/routers/deposits.py:540-553 | the items go through exactly when their retirements are in order |
| DepositLog.VersionsAreExactly | app/routers/deposits.py:739-778 | a table counting 1, 2, 3 per document holds each version once and no other |
| DepositLog.ContiguousMax | app/routers/deposits.py:754-760 | the maximum read from such a table is its count |
| DepositLog.NextVersion | app/routers/deposits.py:754-778 | an uncommitted version that is still free at commit is exactly the next one |
| DepositLog.OwnVersions | app/routers/deposits.py:739-778 | the same for all documents of a deposit, repeated paths included |
| DepositLog.CommitKeepsContiguous | app/routers/deposits.py:739-778 | a commit past the unique index keeps every document counting 1, 2, 3 |
| DepositLog.StoredExactlyOnce | app/routers/deposits.py:808-891 | row, events, handoff, created entries, flags and documents of a committed deposit are what that one commit wrote, no less and no more |
| DepositLog.NothingStoredFor | app/routers/deposits.py:808-891 | and none of them exists for an id never committed |
| DepositLog.InvNext | app/routers/deposits.py:909-968 | every step of every call keeps the log, the tables, open attempts and answers consistent, documents and stub of each commit included; which way a call goes at each branch is said in `DepositTraces` |
| DepositLog.ExactlyOnce | app/routers/deposits.py:893-968 | for calls sharing an id, whatever their bodies, the effects are applied once, by one call, with one new entry per created item; every entry its items retire or supersede is inactive |
| DepositLog.StatusIff | app/routers/deposits.py:540-553 | whatever overwrites what, an entry is active exactly when it began active and no committed item retires or supersedes it, and stored exactly when it was there or some commit created it |
| DepositLog.StatusesAreTheCommits | app/routers/deposits.py:620-627 | the same in every run of racing calls: active exactly when it began active and no accepted deposit has an item naming it |
| DepositLog.RacingParentsPrecede | app/routers/deposits.py:338-437 | in every run each parent was stored, and each new identifier unused, when the deposit committed |
| DepositLog.RacingLineagesAreAcyclic | app/routers/deposits.py:338-437 | supersession stays acyclic under racing deposits: along a lineage the creating commits go strictly back |
| DepositLog.RefusedStoresNothing | app/routers/deposits.py:936-966 | a finished call has committed exactly when it was told it was first; rejected, conflicting and replayed ones stored nothing (what was refused, replayed or given up is said in `DepositTraces`) |
| DepositLog.AnswersAgree | app/routers/deposits.py:790-805 | all successful answers for an id are equal apart from `replayed`, which one call alone lacks |
| DepositLog.LaterReplaySaysTheSame | app/routers/deposits.py:790-805 | an answer given stays what a later lookup builds, after any later history |
| DepositLog.CommittedVersions | app/routers/deposits.py:739-778 | in every run the committed versions of each document are exactly 1..n |
| DepositLog.AttemptsBounded | app/routers/deposits.py:904-963 | no call starts a fourth attempt |
| DepositLog.UndisturbedAttemptCommits | app/routers/deposits.py:904-963 | resending with nothing else committing is accepted |
| DepositLog.ApplyDocuments | app/routers/deposits.py:739-778 | the insert loop extends the table contiguously |
| DepositLog.CommitAnswersBody | app/routers/deposits.py:739-778 | the documents of a commit are its body's paths in order, under its project; its stub is reported exactly by the first deposit of a project nobody had registered |
| DepositLog.ProjectsIff | app/routers/deposits.py:808-891 | a project is registered exactly when it was or some commit is under it |
| DepositTraces.CommittedWasValidated | app/routers/deposits.py:925-938 | in every run whatever is stored was validated first: the call's accepting validation stands before its commit |
| DepositTraces.RejectedIff | app/routers/deposits.py:925-931 | a call is answered as rejected if and only if validation refused its body or a retire target had gone inactive, and then nothing of it is ever stored |
| DepositTraces.ReplayedIff | app/routers/deposits.py:910-943 | a call is answered as a replay if and only if one of its looks found its id stored, and as the first if and only if it committed |
| DepositTraces.ConflictIff | app/routers/deposits.py:944-963 | a call gives up if and only if it collided three times and its id was still unknown |
| DepositTraces.EveryCallTraced | app/routers/deposits.py:909-968 | at every moment of every run a call's phase and attempt number are what its own past steps say |
| DepositTraces.SoloDeposit | app/routers/deposits.py:909-968 | a valid body under a new id, with nothing else committing, is stored at the first attempt, and the acknowledgment lists what was stored |
| DepositTraces.SoloReplay | app/routers/deposits.py:910-924 | a call whose id is stored is answered from the tables with the stored deposit's acknowledgment, whatever its body, and writes nothing |
| Librarian.CallBudget.CanCall | app/librarian_engine.py:203-210 | grants exactly when not aborted and below the maximum; otherwise the run is aborted |
| Librarian.CallBudget.RecordSuccess | app/librarian_engine.py:212-214 | one call more, the failure streak ends (for whole runs: `LibrarianCalls.ProviderDownIff`) |
| Librarian.CallBudget.RecordFailure | app/librarian_engine.py:216-222 | one failure more, aborting when the streak reaches its limit |
| Librarian.Page | app/flags.py:38-73 | unresolved flags of the type asked for, newest first, at most the cap |
| Librarian.PageIsNewest | app/flags.py:38-73 | a waiting flag is left out only for newer ones |
| LibrarianRuns.LibrarianRun.ResolveFlag | app/flags.py:87-100 | the flag is resolved and tallied, or the item fails and only the error count moves |
| LibrarianRuns.LibrarianRun.ProcessFlag | app/librarian_engine.py:534-640 | the fate of one flag, by its entries, the budget, the judgment and where it fails |
| LibrarianRuns.LibrarianRun.ConsiderFlag | app/librarian_engine.py:541-570 | proposals are distinct, inactive pairs stale, both without a call |
| LibrarianRuns.LibrarianRun.JudgeFlag | app/librarian_engine.py:572-640 | a call within budget, then distinct, merge or left open |
| LibrarianRuns.LibrarianRun.DepositMerge | app/librarian_engine.py:442-484 | the merge deposit and the resolution are two transactions |
| LibrarianRuns.LibrarianRun.ProcessFlagType | app/librarian_engine.py:512-640 | the loop over one page stops as soon as the run is aborted |
| LibrarianRuns.LibrarianRun.HarvestLesson | app/librarian_engine.py:682-746 | the fate of one lesson candidate |
| LibrarianRuns.LibrarianRun.HarvestLessons | app/librarian_engine.py:664-746 | the loop over candidates |
| LibrarianRuns.LibrarianRun.RunPhases | app/librarian_engine.py:889-902 | the phases, each skipped once the run is aborted or a listing raised |
| LibrarianRuns.LibrarianRun.WriteSummary | app/librarian_engine.py:752-801 | the summary deposit, or one error more |
| LibrarianRuns.LibrarianRun.RunLibrarian | app/librarian_engine.py:830-945 | skipped runs change nothing; otherwise the phases in order, a listing that raises included, the summary and the status they imply; the library stays sound and the balance exact up to hidden merges (when a run is aborted: `LibrarianCalls`) |
| Merging.MergeRaisesNoFork | app/routers/deposits.py:593-618 | naming active parents raises no fork flag, because an active entry has no children |
| Merging.EntryEffect | app/librarian_engine.py:442-505 | a merge or harvest moves the active count by one minus its parents, supersedes exactly them and adds at most five hints |
| Merging.FlagsNamePairs | app/librarian_engine.py:537-541 | every flag names two different stored entries |
| LibrarianFacts.FlagFollows | app/librarian_engine.py:534-640 | one flag keeps the balance and the accounting up to exactly what slips, pays for its work, and is disposed of exactly when stated, then descending in (active, unresolved) |
| LibrarianFacts.ProcessedFlagDescends | app/librarian_engine.py:534-640 | a flag processed without failures is always disposed of and strictly decreases (active entries, unresolved flags) |
| LibrarianFacts.StepHidesMergeIff | app/librarian_engine.py:626-640 | a step parts tally and library if and only if an approved merge of a live pair is committed and its flag then cannot be resolved |
| LibrarianFacts.MergeLibrary | app/librarian_engine.py:442-484 | validation never refuses a merge of two live entries, which costs exactly one active entry |
| LibrarianFacts.LessonFollows | app/librarian_engine.py:682-746 | one lesson conserves entries and accounts for itself |
| LibrarianFacts.PhasesFollow | app/librarian_engine.py:830-945 | so do the phases of a whole run, aborted or not |
| LibrarianFacts.RunConserves | app/librarian_engine.py:830-945 | final active entries are initial minus merged plus harvested minus hidden merges, and everything seen is accounted for but what was lost; calls stay in budget; only active library entries change |
| LibrarianFacts.BalanceIff | app/librarian_engine.py:830-945 | the balance holds if and only if no merge was hidden, the accounting if and only if no item failed after being seen |
| LibrarianFacts.RunHidesMerge | app/librarian_engine.py:626-640 | a run from a library two deposits make merges them, counts no merge and leaves the flag unresolved |
| LibrarianFacts.CalmRunConserves | app/librarian_engine.py:830-945 | whatever else fails, a run without an approved merge that cannot be resolved keeps the balance |
| LibrarianQueue.WorkIsBounded | app/librarian_engine.py:512-640 | over any number of runs disposals never exceed six times the active entries plus the open flags, plus eleven per harvested lesson |
| LibrarianQueue.QuietRunWorks | app/librarian_engine.py:830-945 | an undisturbed run with flags waiting disposes of at least one |
| LibrarianQueue.QueueEmpties | app/librarian_engine.py:830-945 | enough consecutive undisturbed runs leave no flag unresolved |
| LibrarianCalls.ProviderDownIff | app/librarian_engine.py:187-222 | a run is aborted as provider-down if and only if the last `maxFailures` calls it recorded all failed |
| LibrarianCalls.NoStreakNoAbort | app/librarian_engine.py:187-222 | a run without that many failures in a row is never aborted as provider-down |
| LibrarianCalls.BudgetCountsCalls | app/librarian_engine.py:187-222 | the budget's counts are the recorded calls and failures, within the maximum; a run stopped for its budget made exactly the maximum |
| LibrarianCalls.StreakIff | app/librarian_engine.py:216-222 | the streak is at least `m` exactly when the last `m` calls all failed |
| LibrarianFates.FlagTallied | app/librarian_engine.py:534-640 | an undisturbed flag is seen once and raises the one tally its case demands: distinct for a proposal or a decline, stale for an inactive entry, merged for an approval, none for a failed or ungranted call |
| LibrarianFates.LessonTallied | app/librarian_engine.py:682-746 | an undisturbed lesson is seen once and is skipped, harvested or counted as an error as its case demands |
| LibrarianFates.MergedEntry | app/librarian_engine.py:442-484 | a merge files one library entry superseding both, under the newer one's namespace, under their project if they agree and universal otherwise |
| LibrarianFates.HarvestedEntry | app/librarian_engine.py:486-505 | a harvest files one entry under the lessons namespace and its event's project |
| Transcript.TakeWholeMessagesFromStart | app/room_ai.py:123-147 | the longest fitting run of first messages, or the oversized first one cut |
| Transcript.TakeWholeMessagesFromEnd | app/room_ai.py:150-171 | the longest fitting run of last messages, or the oversized last one cut at its front |
| Transcript.FormatTranscriptForPrompt | app/room_ai.py:174-223 | truncated exactly above forty thousand characters; whole when it fits, otherwise head, notice and tail, counted exactly (where each line stands: `WholeShows`, `HeadShown`, `NoticeShown`, `TailShown`) |
| Transcript.JoinShows | app/room_ai.py:202-215 | joined lines stand in order, one newline apart, and nothing else is there |
| Transcript.WholeShows | app/room_ai.py:189-203 | a transcript that fits shows every message in order, each where the ones before it end |
| Transcript.HeadShown | app/room_ai.py:205-215 | a truncated one begins with the head's lines in order, each where the ones before it end |
| Transcript.NoticeShown | app/room_ai.py:205-215 | then the notice with the number of missing messages, if any are |
| Transcript.TailShown | app/room_ai.py:205-215 | then the tail's lines in order |
| Transcript.TextLength | app/room_ai.py:205-215 | and that is the whole text |
| Transcript.CutEnds | app/room_ai.py:123-171 | an end message of twenty thousand characters or more is there alone: the first keeps its first twenty thousand, the last its last |
| Transcript.DecimalDenotes | app/room_ai.py:205-215 | the number in the notice is digits without a leading zero, most significant first, denoting the count |
| Transcript.Budgets | app/room_ai.py:100-101 | two equal halves of forty thousand characters |
| Transcript.StartCountUnique | app/room_ai.py:123-147 | the head count is determined by the messages and the budget |
| Transcript.EndCountUnique | app/room_ai.py:150-171 | so is the tail count |
| Transcript.EndsAreWholeMessages | app/room_ai.py:174-223 | the ends are the first and last messages unchanged, without overlap, never empty |
| Transcript.StartCutIff | app/room_ai.py:123-147 | the notice appears exactly from the half budget of characters on, text is lost exactly beyond it |
| Transcript.EndCutIff | app/room_ai.py:150-171 | the same at the end |
| Transcript.NothingOmittedMeansNotice | app/room_ai.py:174-223 | truncated with nothing omitted implies a notice at one end at least |
| Transcript.AllKeptIff | app/room_ai.py:174-223 | all text is kept if and only if no message is omitted and neither end message exceeds its half |
| Transcript.TruncatedYetWholeIff | app/room_ai.py:174-223 | the inputs reported truncated although all text is kept, exactly |
| Transcript.TwoHalvesAreWhole | app/room_ai.py:123-171 | two messages of exactly half the budget are such an input |
| Transcript.LoneOversizedIsCut | app/room_ai.py:123-147 | a lone message over the whole budget keeps its first half-budget of characters |
| Transcript.EndsWithinBudget | app/room_ai.py:100-101 | each end stays within its half plus the notice |
| Transcript.TextWithinBudget | app/room_ai.py:174-223 | the text stays within the budget plus three notices |

## Left out

- UploadStream.UploadSession.ReceiveAttachmentUpload: which refusal is reported may depend on the chunking (a late bad byte against an early size excess); only acceptance and what is recorded are proved independent of it. Buffering of file writes and a client disconnect are not modelled here; `DiskPledge` has the abort at every point.
- DiskPledge.DiskFloorSound: assumes that nothing but uploads takes disk space and that a write takes effect at once.
- BlobProtocol.EveryRowHasFile: holds only outside the commit-to-unlink window; `LosesFileIff` shows that condition to be exact.
- BlobProtocol.InvNext: hashing is injective and a blob's path depends on its hash alone; the lazily created counter row and the size of retry loops are not modelled, and a retry may happen any number of times.
- KnowledgeGraph.DepositsKeepInv: deposits are serial here, because parent rows are not locked (`app/routers/deposits.py:541`, `594`).
- BlobProtocol.AdvanceInv: a reclaim that finds its blob still referenced releases the row lock at once, where the program holds it until the session's next commit; this only admits more interleavings.
- DepositLog.InvNext: a collision may strike an attempt at any time, which includes every real one; whether it also writes a parent that is already inactive, and which flags it raises, is left open there, because its reads are not serialised with other deposits.
- Librarian.Page: flags of one deposit are ordered by position, where the program breaks ties of creation time by identifier.
- LibrarianRuns.LibrarianRun.RunLibrarian: runs alone; a failure outside single items strikes a phase's listing only; outside deposits and a second run at the same time are not interleaved with it.
- RoomPolling.PollMessages: each iteration reads room and messages as one version, and iterations are one second apart; working markers and stall or not-opened notifications are left out.
- Knowledge.Hints: the text ranking is an arbitrary list given with the item.
- Message identifiers are sequence numbers, entry and flag identifiers are positions; the clock is a parameter.
- Room names, topics, sides, groups, projects, stall settings and the lookup of seat machines at creation.
- Wording of announcements, prompts and notifications; the model's outcomes are inputs.
- Validation of event, handoff, project and document shapes: one accepted-or-rejected bit in `DepositLog`.
- Entry titles, bodies and tags: no property here depends on them.
- The older PDF-only upload, HTTP routing, access tokens, templates, exports, listings, configuration and migrations.
