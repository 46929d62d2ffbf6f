# appspawn, modelled and verified

A Dafny model of the process spawner: how a spawn request travels from client to server to child,
and how the server keeps track of children, pipes and reference counts while it serves requests.
`dafny verify dfyconfig.toml` checks all of it.

**The request message pipeline.** The client writes a header and 4-byte-aligned records (TLVs) into
a chain of 4 KB blocks (`BlockChain`, `ClientMsg`); what such a request is, as a value, is in
`ClientRequest`. The server cuts the received stream into messages (`Framing` says what that should
come to, `Receive` does it on real buffers) and decodes them into an offset table (`MsgDecode` as a
function and as a property of the bytes, `MsgNode` in place). `SpawnCheck` is what a message must
hold to be spawned for. SPM rewrites the decoded message in two phases (`Rebuild`, `SpmMessage`,
`TlvBuilder`), and a pre-forked child gets it through shared memory (`HandOff`). `RoundTrip` and
`RebuildMeaning` say what survives all this, `Witnesses` where it does not. `WireFormat` and
`RebuiltValues` spell the bytes out, on the wire and after the rebuild.

**The life cycle of spawned processes.** `Kernel` is the kernel as the spawner sees it: its calls may
fail, its descriptors and pids are new when they are handed out, and a fork records what the child
inherits (`Images`). `FdQueue` is the queue of spawn descriptors, `AppMgr` the manager with its
queues, `Prefork`, `ChildEvents`, `Unlock` and `SpawnService` the event handlers up to
`SpawnService.Run`, which runs the spawner over any sequence of events. The books (`Books`) relate
what the kernel has open, alive or counted to what the queues record; every single step keeps them
balanced, also in the middle of a handler, where ghost fields name what the handler has in hand.
`Routing` says what holds between two events; the pool of pre-forked children is stated over the
nodes of its two types, with any other nodes among them. `Snapshots` is the spawner as a machine
over values: every handler is proved to take the records from one snapshot to exactly the next.
`History` reads the trace of a run backwards, from what was dropped, killed or counted to the event
that did it; `Crashes` counts the deaths in it; `Outcomes` tells of every kind of event what it comes
to, from its own fields. `ChildProcess` is the other side of the fork, and `Replacement` joins the two
halves: the rebuilt bytes and the reference counts. `Guarantees` is what follows for every run.

**Two small cores.** `Permission` and `PackedFlags`: both sides number permissions alike, and packed
words are exactly sets. `CommandLexer`: the quoting lexer against an independent grammar.

## What the code does not promise

- The client allows a message of exactly 65536 bytes and any number of records; the server takes
  neither that length nor 128 records. `RoundTrip.ServerAccepts` is the exact condition,
  `Witnesses.RefusedRequests` has one request of each kind.
- A half-received header passes for a complete message when nine bytes of it have arrived and the
  length is 9 modulo 256 (`Framing.MisreadExactly`, `Witnesses.NinthByteWitness`); the alignment of
  all client messages rules it out.
- A message without a body drops what was received behind it (`Framing.HeaderOnlyDropsTheRest`,
  `Witnesses.HeaderOnlyWitness`).
- The decoder accepts records the rebuild cannot make out: exactly those shorter than their own
  head and those of a type above TLV_MAX (`MsgDecode.ReadableIff`, `MsgDecode.UnreadableAccepted`).
- The rebuild adds a record without counting it in the header; the message still decodes because the
  header also counts the flag records (`RebuildMeaning.RebuiltDecodesIff`).
- A request the server has checked may still be refused by the pre-forked child, because the rebuild
  brings a bundle name of its own (`HandOff.CheckedRequestIsTaken`, `Witnesses.RefusedByTheChild`).
- A reference count leaks when the kernel raises the token count and then reports the uid count as
  unsupported (`AppMgr.AppSpawnMgr.IncreaseRefCounts`, `Guarantees.TokenCountLeaks`), when a later
  decode hook fails (`SpawnService.FreeUndecoded`), and when the kernel does not lower a count.
- A context is looked up by pid alone. If the kernel gives out a pid again while an older context
  still names it, a death is answered for the older context or not at all (`Guarantees.ReusedPid`).
- A permission name without an opcode keeps opcode 0 and is granted with bit 0 of the kernel bitmap
  (`PackedFlags.NoOpcodeFollowsBitZero`).

## Model

| member | source | states |
|---|---|---|
| `RoundTrip.RequestArrives` | interfaces/innerkits/client/appspawn_msg.c:105-277 | end to end, for a request object built by any successful client calls and its blocks received in any pieces: the server hands on exactly one message, it is the request, and its lookups find what was set |
| `RoundTrip.RequestsArrive` | standard/appspawn_service.c:506-562 | the same for any number of requests on one connection and any cutting of the stream: the same messages, in the same order, nothing kept, the connection open |
| `Framing.ChunkingDoesNotMatter` | standard/appspawn_service.c:506-562 | for every cutting of a stream of good messages into receives the same messages are dispatched in order and exactly the unfinished beginning is kept |
| `MsgDecode.DecodeIsTiling` | standard/appspawn_msgmgr.c:229-303 | for any bytes: decoding succeeds if and only if accepted records tile the body with no more extended ones than the header counts, and the table then holds that tiling |
| `RebuildMeaning.RebuildPreservesMeaning` | modules/spm/spm.c:1087-1115 | whoever decodes the rebuilt message finds, told byte by byte: SPM index and name cut to 255; the SPM uid and behind it the old DAC record, group ids and all; the old flags and the APL name; the owner id in decimal digits; the granted words; the JIT text, the distribution name, the id type; and of every other type and name the old value. The decoder makes the table the writer made |
| `SpmMessage.RecordsTell` | modules/spm/spm.c:820-867 | for any decoded message, whichever way its records are ordered or repeated: it can be rebuilt exactly when none of its records blocks it, and then every lookup among the new records finds the bytes it should |
| `Replacement.ReplaceFromSpm` | modules/spm/spm.c:1142-1187 | message bytes and reference counts together: the context ends up with the node the rebuild made exactly when the SPM data and the counts are there, the upper word of the access token is their attribute, the uid is theirs or the process is a special one, every record can be built and every name ends within its 32 bytes; the new message serves the same request and names the same token and uid |
| `HandOff.RebuiltRequestReachesTheChild` | standard/appspawn_service.c:1378-1415 | a client request, rebuilt and handed over: the child takes it exactly when it stays below the limit, the mandatory records and a process name are there, and the SPM bundle name holds no slash or backslash; and its lookups are those after the rebuild |
| `SpawnService.Run` | standard/appspawn_service.c:1900-1924 | every run over any events from the start: all laws hold after each event, each step of the recorded trace does what `Step` says of its event and no more, and nothing leaks while the SPM module works |
| `Guarantees.EveryRequestOnce` | standard/appspawn_service.c:303-328 | after any run, the request of any event was answered exactly once and never given up; or it was given up at a later event that closed its own connection; or exactly one context owes the answer |
| `Guarantees.AnsweredInTheEnd` | standard/appspawn_service.c:303-328 | as long as its connection stays open, a request is answered once no context waits any more |
| `Guarantees.NoChildIsLost` | standard/appspawn_service.c:1378-1415 | after any run, whatever has happened, every living child is the reserved one, one context's or one process, and only one of these; or it has no place because an event of the run killed it or had the spawner give it up |
| `Guarantees.ForkMessagesFindTheirContext` | standard/appspawn_service.c:1030-1071 | both sides of the pipes: a pre-forked child reads one message and there is no other; a fork message of a waiting client is for that client's own child; and what is written into the pipe whose read end is in that context is: the result of the mount; nothing for a bad length; the code for an invalid message; or of the spawn the first failure before the reply, 0 exactly when there is none and the child is not appspawn's, nothing exactly when nothing fails and it is appspawn's |
| `Guarantees.SpawnedChildrenAnswerTheirContext` | common/appspawn_server.c:79-132 | the same of a child that was forked for a context, to spawn or to mount: which result is in its context's own pipe, told from the results of its hooks |
| `Guarantees.DescriptorsHaveOneOwner` | standard/appspawn_fd_manager.c:57-170 | every open spawn descriptor belongs to exactly one queue node or one context |
| `Guarantees.CountsAreHolders` | modules/spm/spm.c:880-913 | while nothing leaks, a kernel count is the number of contexts and processes that record it |
| `Guarantees.CrashHistory` | standard/appspawn_service.c:1531-1564 | each of the last counted client ids belongs to a context whose child an event of the run reported dead by a signal while it was spawning |
| `Guarantees.StopsForAReason` | standard/appspawn_service.c:1555-1563 | the spawner stops only on SIGTERM, or after the children of five clients in a row have died so |
| `Crashes.StopsExactly` | standard/appspawn_service.c:1531-1564 | over any run, both directions: an event stops the spawner exactly when it is SIGTERM or the fifth of five, the children of five consecutive client ids reported dead by signals while they were being spawned, one after the other, and no other child that was being spawned has died in between |
| `Crashes.FewDeathsSoFar` | standard/appspawn_service.c:1555-1563 | a spawner that runs has counted fewer than five deaths |
| `Crashes.CountedDeaths` | standard/appspawn_service.c:1541-1550 | the counter is the length of such a row, which ends with the death of the recorded id |
| `History.ExcusedIff` | standard/appspawn_service.c:236-301 | a child counts as killed or given up exactly after an event that does it: its own failure, timeout or unlock, its closed connection, a response about it that could not be sent, a failed spawn or unlock it was chosen for, a dead process of its control group, a status request, a debugger's signal, the end of the spawner; both directions, for every event |
| `History.StepSettles` | standard/appspawn_service.c:236-301 | the same of a single event: it adds exactly the children it settles |
| `History.ReserveIsSpared` | standard/appspawn_service.c:1505-1526 | whatever goes wrong with a spawn or an unlock, the child that had to go is not the reserved one that is left behind |
| `History.DroppedByClose` | standard/appspawn_service.c:249-272 | a request is given up only at a later event that closes the connection it came by |
| `History.SignalledByDeath` | standard/appspawn_service.c:1541-1550 | an id enters the crash history only when its spawning child is reported dead by a signal |
| `History.ReapedOnce` | standard/appspawn_service.c:206-234 | a child ceases to be one only when the kernel has reported its end |
| `History.ContextsServeRequests` | standard/appspawn_service.c:1484-1491 | in any run every context serves the request of an earlier event over the connection it came by, with its token and uid; a spawning one holds the message SPM made of the client's exactly when token and uid were there, both counts were raised and SPM made one, and the client's own otherwise; its flags say which counts it has to give back |
| `History.RequestsAreNumbered` | standard/appspawn_service.c:2343-2431 | an event brings its request into the books once, if it is a request, and no other event does |
| `Guarantees.DeathsAreAnswered` | standard/appspawn_appmgr.c:382-388 | the first context with the pid of a waiting context's child is that context, so its death is answered |
| `Guarantees.ContextsShareNoPipe` | standard/appspawn_service.c:1338-1359 | no two contexts hold ends of one pipe |
| `Guarantees.DeleteAppSpawnMgr` | standard/appspawn_appmgr.c:101-121 | draining the queues closes every descriptor there is |
| `CommandLexer.LexAccepts` | modules/ace_adapter/command_lexer.cpp:30-103 | the lexer accepts exactly the lines of the grammar and answers their words |
| `CommandLexer.LexOfQuoted` | modules/ace_adapter/command_lexer.cpp:30-103 | quoting any list of strings and joining with white space lexes back to the list |
| `Permission.SameNamesSameOrder` | modules/sandbox/appspawn_permission.c:56-92 | two sorted queues of the same names have the same order, so both sides number alike |
| `PackedFlags.GrantedFlags` | modules/spm/spm.c:264-302 | bit i ends up set if and only if node i has an opcode the kernel bitmap holds |
| `WireFormat.OnlyWellFormedMessages` | standard/appspawn_service.c:506-562 | whatever bytes come in, in whatever pieces: every message handed on starts with the bytes 34 12 20 EF, is as long as it says, from 276 to 65535 bytes, counts fewer than 128 records and fewer than a quarter of its length, has no body or one that decodes, and is of type 8 if the peer is the shell user |
| `WireFormat.HeaderOnTheWire` | modules/module_engine/include/appspawn_msg.h:135-142 | the bytes of the header of any client request: magic, type, length, id, count, name, zeros |
| `WireFormat.RecordOnTheWire` | modules/module_engine/include/appspawn_msg.h:83-94 | the bytes of every record of any client request, where they stand and in which order |
| `WireFormat.FlagsOnTheWire` | interfaces/innerkits/client/appspawn_msg.c:232-250 | the first record holds the message flags, of a spawn request the second the permission flags: count and words |
| `WireFormat.AcceptedRecords` | standard/appspawn_msgmgr.c:216-262 | which records the decoder accepts, by type and length in numbers, those that pass by a wrapped subtraction included |
| `WireFormat.CheckedHeaders` | standard/appspawn_msgmgr.c:126-136 | which headers pass, in bytes and numbers |
| `Outcomes.Spawns` | standard/appspawn_service.c:1466-1527 | a spawn request from its fields: served by the reserved child exactly when pre-forking is on, there is one and the message is mapped, otherwise by a new one; waiting with a child of its own exactly when that worked and can be watched, answered at once otherwise |
| `Outcomes.ChildrenAfterSpawn` | standard/appspawn_service.c:1378-1415 | and the children: at most one new one to serve, the new reserved one, and who had to go |
| `Outcomes.PoolAfterSpawn` | standard/appspawn_service.c:1212-1224 | and the pool: refilled exactly when each of its five steps works, unless the message could not be mapped |
| `Outcomes.NotForkedFor` | standard/appspawn_service.c:1466-1504 | a request refused by the check or given up by a hook is answered, and nothing but its number remains of it |
| `Outcomes.Unlocks` | standard/appspawn_service.c:2493-2535 | an unlock request from its fields: the reserved child, a new one, or an answer at once; and the pool afterwards |
| `Outcomes.ChildrenAfterUnlock` | standard/appspawn_service.c:2493-2535 | and the children: who is new, who had to go |
| `Outcomes.ChildAnswers` | standard/appspawn_service.c:1653-1705 | an answer from a context's child: 0 with a usable record makes it a process of the client's token and uid with the counts taken for it, anything else gives it up; exactly this context goes and its request is answered |
| `Outcomes.ChildIsLate` | standard/appspawn_service.c:1566-1583 | a timeout: exactly this context goes, its request is answered, its child killed |
| `Outcomes.NobodyWaits` | standard/appspawn_service.c:739-768 | a watcher or timer whose context is gone does nothing |
| `Outcomes.ProcessDies` | standard/appspawn_service.c:175-204 | a process that dies is in no record afterwards; nwebspawn keeps the latest five with their status and with the counts that were not lowered; with it die exactly the unrecorded processes of its control group, up to the first line that is no pid |
| `Outcomes.SpawnedChildDies` | standard/appspawn_service.c:1531-1564 | a child that dies while being spawned: exactly its context goes and is answered; the crash history; and if the spawner stops for it, what that takes |
| `Outcomes.OtherChildDies` | standard/appspawn_service.c:206-234 | any other child that dies is only taken off the list |
| `Outcomes.Terminates` | standard/appspawn_service.c:110-132 | SIGTERM kills the reserved child, every process and what is in their control groups, and nobody else |
| `Outcomes.ProcessEnds` | standard/appspawn_service.c:668-680 | a process that has ended takes exactly its group with it, its record stays |
| `Outcomes.ResponseFails` | standard/appspawn_service.c:283-301 | a recorded process whose client could not be told of it is killed, nothing else happens |
| `Outcomes.ConnectionCloses` | standard/appspawn_service.c:249-272 | exactly the contexts of the connection go, their requests are given up, their children killed |
| `Outcomes.DebuggerSignals` | standard/appspawn_service.c:2171-2191 | signal 9 and no other ends a recorded, debuggable process |
| `Outcomes.StatusIsAsked` | standard/appspawn_appmgr.c:269-303 | a status request takes the first record of the dead process; or kills the running one, whose record goes if it ends in time |
| `Outcomes.WhichStatus` | standard/appspawn_appmgr.c:269-303 | the status that is told: the one it died with, the one the kernel reports, 0 or -1 |
| `Outcomes.DeadWithTheirStatus` | standard/appspawn_appmgr.c:183-207 | over any run, a record among the dead stands for a process that an event reported dead with exactly this status |
| `Outcomes.GroupKilled` | modules/common/appspawn_cgroup.c:143-172 | whom the end of a process takes with it |
| `Outcomes.StopKills` | standard/appspawn_appmgr.c:123-133 | whom the end of the spawner takes with it |
| `Outcomes.WhenSpmWorks` | modules/spm/spm.c:880-913 | what it takes that an event leaks no count |
| `WireFormat.LastStdIs` | standard/appspawn_msgmgr.c:27-34 | the payload a standard lookup is about is that of a record with none of its type behind it, and there is none exactly if no record is of the type |
| `WireFormat.FirstExtIs` | standard/appspawn_msgmgr.c:36-61 | the record a lookup by name is about has none of its name before it, and there is none exactly if no record has the name |
| `ChildProcess.WhatIsTold` | common/appspawn_server.c:79-132 | which result a child reports, from the results of its hooks |
| `SpawnCheck.RefusedWithout` | standard/appspawn_msgmgr.c:195-204 | a message without a record of type 0, 1, 2, 3 or 5 is refused, for each of the five |
| `Replacement.WhatIsKept` | modules/spm/spm.c:940-966 | where token and uid of a message are read: the first word of the access token record and of the DAC record |
| `HandOff.WhichNamesArePlain` | modules/spm/spm.c:339-380 | no slash or backslash among the first 255 bytes of the SPM name, up to a zero |
| `ClientMsg.WhatIsCreated` | interfaces/innerkits/client/appspawn_msg.c:252-277 | which requests can be created and what they are then: permission flags for types 0, 2, 14 and 15 only |
| `PackedFlags.HasIs` | standard/appspawn_msgmgr.c:63-79 | a member of a packed set is a binary digit of word index / 32 |
| `Bytes.StrCmpIs` | modules/sandbox/appspawn_permission.c:45-54 | the order of permission names: a beginning comes first, otherwise the smaller byte at the first difference |
| `RoundTrip.ServerAccepts` | interfaces/innerkits/client/appspawn_msg.c:38-51 | the server takes a client message if and only if its length is below 65536 and it counts fewer than 128 records; the client itself allows length 65536 and any count |
| `Witnesses.RefusedRequests` | interfaces/innerkits/client/appspawn_msg.c:38-51 | a request of exactly 65536 bytes and one that counts 128 records: the client builds both, the server refuses both |
| `Framing.MisreadExactly` | standard/appspawn_service.c:526-530 | a partial header passes for a complete message if and only if nine bytes of it have arrived and the length is 9 modulo 256 |
| `Framing.AlignedIsNeverMisread` | standard/appspawn_service.c:526-530 | no cutting misreads a message exactly when its length is not 9 modulo 256; a length that is a multiple of 4 is safe |
| `Framing.NinthByteCloses` | standard/appspawn_service.c:526-556 | a message of such a length that arrives whole is dispatched, cut after nine bytes it closes the connection |
| `Witnesses.NinthByteWitness` | standard/appspawn_service.c:526-556 | such a message: 521 bytes |
| `Framing.HeaderOnlyDropsTheRest` | standard/appspawn_msgmgr.c:343-345 | a message without a body is dispatched and every byte received behind it is dropped |
| `Witnesses.HeaderOnlyWitness` | standard/appspawn_msgmgr.c:343-345 | a header-only message and a good one: both dispatched one by one, the second lost when they arrive together |
| `MsgDecode.ReadableIff` | standard/appspawn_msgmgr.c:229-303 | exactly which accepted records the rebuild cannot make out: those shorter than their own head and those of a type above TLV_MAX |
| `MsgDecode.MessageReadableIff` | modules/spm/spm.c:820-867 | an accepted message can be read record by record exactly when it has no such one |
| `MsgDecode.UnreadableAccepted` | standard/appspawn_msgmgr.c:252-262 | such records: one of type 11, and one of two bytes |
| `RebuildMeaning.RebuiltDecodesIff` | modules/spm/spm.c:1015-1075 | the rebuilt message decodes again exactly when the old header count, which is not brought up to date, covers the added record |
| `SpmMessage.ReplacedIff` | modules/spm/tlv_builder.c:109-166 | a message whose records could all be built is replaced exactly when every name ends within its field |
| `HandOff.CheckedRequestIsTaken` | standard/appspawn_service.c:852-872 | a request that passed the server's check is refused by the child exactly when the rebuilt message is too long or the SPM bundle name is not a plain one |
| `Witnesses.RefusedByTheChild` | standard/appspawn_msgmgr.c:184-214 | such a request, byte for byte: the server accepts, checks and rebuilds it, and the child refuses it for its new bundle name a/b alone |
| `Guarantees.TokenCountLeaks` | modules/spm/spm.c:880-913 | a leak from a fresh start: the token count is raised, the uid count is unsupported, and nobody records the token any more |
| `RoundTrip.LookupsFindWhatWasSet` | standard/appspawn_msgmgr.c:27-61 | a standard type looks up to the last payload the client added, a name to the first record of that name with its exact data length |
| `RoundTrip.ServerTestsTheClientsFlags` | standard/appspawn_msgmgr.c:63-79 | on the decoded message the server tests a message flag or permission bit true if and only if the client set it |
| `RoundTrip.SetRecordsAreSound` | standard/appspawn_msgmgr.c:216-262 | every record a client setter can produce passes the checks of the decoder |
| `Framing.DeliverMessages` | standard/appspawn_service.c:506-562 | one receive that completes several messages dispatches all of them and keeps the rest |
| `Framing.OneTurn` | standard/appspawn_service.c:513-545 | one turn of the loop: bytes left to read strictly decrease unless none are left, so the loop ends |
| `Receive.Connection.OnReceiveRequest` | standard/appspawn_service.c:506-562 | the handler refines the specification: after every receive the dispatched messages and the kept beginning are those of `OnReceive` |
| `Receive.Connection.Turn` | standard/appspawn_service.c:513-545 | what one turn does to the connection: keep, hand on, or close |
| `Receive.ReceiveOne` | standard/appspawn_service.c:513-545 | one turn of the loop over the real node computes `OneTurn` |
| `Receive.GetAppSpawnMsgFromBuffer` | standard/appspawn_msgmgr.c:305-356 | what a message node holds after any chunk: the bytes so far, how many of them, how many remain, or the refusal of the header |
| `MsgDecode.ExtOffsetsIncrease` | standard/appspawn_msgmgr.c:264-303 | the extended entries of the table are strictly increasing offsets inside the body |
| `MsgDecode.LaidDecodes` | standard/appspawn_msgmgr.c:264-303 | records laid out in a body decode when the header counts enough of them, and to their boundaries |
| `MsgDecode.LookupInfo` | standard/appspawn_msgmgr.c:27-34 | the standard lookup finds the payload of the last record of the type, or nothing if there is none |
| `MsgDecode.LookupExt` | standard/appspawn_msgmgr.c:36-61 | the lookup by name finds the first record of the name with its data length, or nothing; for every name when the records' own names end within their fields, for every name that fits the field otherwise |
| `MsgNode.MsgNode.AppSpawnMsgRebuild` | standard/appspawn_msgmgr.c:138-157 | a checked header gets an empty table of TLV_MAX + tlvCount entries and a zeroed body of the announced size |
| `MsgNode.MsgNode.DecodeAppSpawnMsg` | standard/appspawn_msgmgr.c:264-303 | the method computes `Decode` on the body, table and count included, and fails exactly when it fails |
| `MsgNode.MsgNode.GetAppSpawnMsgInfo` | standard/appspawn_msgmgr.c:27-34 | computes the table lookup; nothing without body or table |
| `MsgNode.MsgNode.GetAppSpawnMsgExtInfo` | standard/appspawn_msgmgr.c:36-61 | computes the search by name from the first extended entry on |
| `Written.AcceptableIffSound` | standard/appspawn_msgmgr.c:216-262 | wherever a record stands, CheckMsgTlv accepts it if and only if the record itself is sound and its data fit its length by an unsigned subtraction |
| `Written.LaidLookups` | standard/appspawn_msgmgr.c:27-61 | records laid out and counted: they decode and every lookup finds the last payload or the first record |
| `MsgLayout.ReadWritten` | modules/module_engine/include/appspawn_msg.h:83-142 | a record read back from its bytes is the record that was written |
| `MsgLayout.ReadBody` | modules/module_engine/include/appspawn_msg.h:83-142 | so is every record of a body, at its offset |
| `SpawnCheck.CheckAppSpawnMsg` | standard/appspawn_msgmgr.c:184-214 | succeeds exactly for a message with a process name and a record of each of the types 0, 1, 2, 3 and 5 whose bundle name holds neither byte 47 nor byte 92 |
| `SpawnCheck.SpawnableByLookups` | standard/appspawn_msgmgr.c:184-214 | what the check comes to in terms of what the records hold |
| `BlockChain.BlockChain.GetValidMsgBlock` | interfaces/innerkits/client/appspawn_msg.c:73-85 | first fit always picks the tail block, because no other block has room |
| `BlockChain.BlockChain.AddAppDataToBlock` | interfaces/innerkits/client/appspawn_msg.c:105-119 | fails exactly when the padded data does not fit, otherwise appends it with its padding |
| `BlockChain.BlockChain.AddAppDataToTail` | interfaces/innerkits/client/appspawn_msg.c:121-148 | appends data across blocks: the contents grow by the data and its padding, no block but the tail keeps room |
| `BlockChain.BlockChain.AddRecord` | interfaces/innerkits/client/appspawn_msg.c:168-186 | a record of several pieces is appended in full whether or not it fits into one block |
| `BlockChain.RoomIsShort` | interfaces/innerkits/client/appspawn_msg.c:127-140 | when padded data does not fit the tail, the unpadded data does not either, so padding never lands inside a straddling record |
| `ClientMsg.ReqNode.CreateBaseMsg` | interfaces/innerkits/client/appspawn_msg.c:252-277 | succeeds exactly when the flag records fit the first block, and leaves the empty request |
| `ClientMsg.ReqNode.CheckMsg` | interfaces/innerkits/client/appspawn_msg.c:38-51 | accepts exactly what keeps the message within 65536 bytes, and for a status request only its own record |
| `ClientMsg.ReqNode.AddAppData` | interfaces/innerkits/client/appspawn_msg.c:188-230 | the request gains the record behind all others, with length and count in the header, or stays as it was |
| `ClientMsg.ReqNode.AddAppDataEx` | interfaces/innerkits/client/appspawn_msg.c:150-186 | the same for a named record |
| `ClientMsg.ReqNode.SetAppSpawnMsgFlags` | interfaces/innerkits/client/appspawn_msg.c:28-36 | sets one bit of one flag record in place and disturbs nothing else |
| `ClientRequest.PutInBody` | interfaces/innerkits/client/appspawn_msg.c:28-36 | a store into one record of a body changes this record and no other |
| `ClientRequest.StoredFlagWord` | interfaces/innerkits/client/appspawn_msg.c:28-36 | a flag word stored in place changes the request in this word only |
| `ClientRequest.AddedRecord` | interfaces/innerkits/client/appspawn_msg.c:188-230 | bytes of a record behind the message, then length and count: the bytes of the longer request |
| `ClientMsg.ReqNode.AppSpawnReqMsgSetBundleInfo` | interfaces/innerkits/client/appspawn_msg.c:380-400 | adds index and terminated bundle name, or reports why not and leaves the request |
| `ClientMsg.ReqNode.AppSpawnReqMsgSetAppDomainInfo` | interfaces/innerkits/client/appspawn_msg.c:488-504 | adds flags and terminated APL, or reports why not and leaves the request |
| `ClientMsg.ReqNode.AppSpawnReqMsgSetAppOwnerId` | interfaces/innerkits/client/appspawn_msg.c:520-532 | adds the terminated owner id, or reports why not and leaves the request |
| `ClientMsg.ReqNode.SetFixedInfo` | interfaces/innerkits/client/appspawn_msg.c:364-378 | adds a record of a fixed layout: DAC, internet permission, access token, checkpoint, or reports why not and leaves the request |
| `ClientMsg.ReqNode.AppSpawnReqMsgAddExtInfo` | interfaces/innerkits/client/appspawn_msg.c:438-452 | adds a named binary record, or reports why not and leaves the request |
| `ClientMsg.ReqNode.AppSpawnReqMsgAddStringInfo` | interfaces/innerkits/client/appspawn_msg.c:454-469 | adds a named terminated string, or reports why not and leaves the request |
| `ClientMsg.ReqNode.AppSpawnReqMsgSetAppFlag` | interfaces/innerkits/client/appspawn_msg.c:425-436 | sets a message flag below the limit, otherwise refuses and changes nothing |
| `ClientMsg.ReqNode.AppSpawnReqMsgAddPermission` | interfaces/innerkits/client/appspawn_msg.c:471-486 | sets the permission bit of a valid index, otherwise refuses and changes nothing |
| `ClientMsg.AppSpawnReqMsgCreate` | interfaces/innerkits/client/appspawn_msg.c:343-355 | a new valid request exactly for a valid type and name whose flag records fit |
| `ClientMsg.AppSpawnTerminateMsgCreate` | interfaces/innerkits/client/appspawn_msg.c:545-559 | a status request that holds the pid |
| `Rebuild.RebuiltExactly` | modules/spm/spm.c:820-867 | collecting fails exactly when a permission record or a JIT record has no data, or a binary named record is empty |
| `Rebuild.InfoOfRebuilt` | modules/spm/spm.c:820-867 | standard lookups after the rebuild: SPM-derived for sensitive types, unchanged otherwise |
| `Rebuild.ExtOfRebuilt` | modules/spm/spm.c:780-818 | named lookups after the rebuild, and one extended record more than before |
| `SpmMessage.CopyStandardTlv` | modules/spm/tlv_builder.c:168-190 | whichever record of a type the walk has come to, the last one of the type is copied |
| `SpmMessage.CollectExtTlvByName` | modules/spm/spm.c:780-818 | what becomes of an extended record, also of one shorter than its head or without a terminated name |
| `SpmMessage.CollectTlvsInOrder` | modules/spm/spm.c:820-867 | walks the decoded message and collects exactly the records of `Rebuilt`; fails exactly at a permission record or text that could not be queried or an empty binary one; and every lookup among what it collects finds the bytes `TellsInfo` and `TellsExt` spell out |
| `TlvBuilder.WriteTlvEntriesToBuffer` | modules/spm/tlv_builder.c:109-166 | fails exactly at a name that does not fit; otherwise the exact-size buffer is filled to the byte with the entries, and the table holds their offsets |
| `SpmMessage.WriteTlvsToNewMsg` | modules/spm/spm.c:1015-1075 | the new message: old header with the new length, the entries, their table; or none, exactly when memory or a name fails |
| `SpmMessage.BuildAndReplaceMessage` | modules/spm/spm.c:1087-1115 | the rebuilt message replaces the old one exactly when no record blocks it, every name ends within 32 bytes and there is memory; of the header only the length is new, and its records hold, byte by byte, the SPM values and the rest of the old ones; on any failure the old message stays as it was |
| `RebuildMeaning.TilingIsUnique` | standard/appspawn_msgmgr.c:279-297 | a body has at most one tiling by records |
| `RebuildMeaning.TokenAndUidSurvive` | modules/spm/spm.c:495-544 | token and uid of the rebuilt message are those the reference counts were raised for, given the consistency check |
| `Replacement.RebuildServesTheSameRequest` | modules/spm/spm.c:940-966 | what the life cycle keeps of a message, its token, uid and request, is the same read from the rebuilt bytes through the table the writer left |
| `HandOff.WritePreforkMsg` | standard/appspawn_service.c:824-850 | the mapping starts with header and body, one behind the other |
| `HandOff.GetAppSpawnMsg` | standard/appspawn_service.c:852-872 | the child gets the same bytes and the same table exactly when the header passes, the body decodes and CheckAppSpawnMsg agrees; otherwise it gets nothing |
| `HandOff.ChildFinds` | standard/appspawn_service.c:852-872 | a child takes counted records exactly when they stay below the limit and the message can be spawned, and then finds what they hold |
| `HandOff.RequestCanSpawn` | standard/appspawn_msgmgr.c:184-214 | the server's own check of a client request: it passes exactly when the client has set bundle, DAC, domain and access token, with a plain bundle name |
| `HandOff.RebuiltCanSpawn` | modules/spm/spm.c:339-380 | a rebuild keeps the mandatory records, and brings its own bundle name |
| `Permission.SandboxQueue.AddSandboxPermissionNode` | modules/sandbox/appspawn_permission.c:56-92 | adds a name once and keeps the queue sorted; a name that is there changes nothing |
| `Permission.SandboxQueue.PermissionRenumber` | modules/sandbox/appspawn_permission.c:113-131 | numbers the nodes 0 to n-1 in order and returns n |
| `Permission.SandboxQueue.GetPermissionIndexInQueue` | modules/sandbox/appspawn_permission.c:157-161 | the index of a name is its rank among the names, or the invalid index |
| `Permission.SandboxQueue.GetPermissionNodeInQueueByIndex` | modules/sandbox/appspawn_permission.c:145-155 | on a numbered queue, the node at the index |
| `Permission.LoadPermission` | interfaces/innerkits/permission/appspawn_mount_permission.c:156-179 | any order and repetition of configured and built-in names gives a numbered queue of exactly these names |
| `Permission.IndexNameInverse` | interfaces/innerkits/permission/appspawn_mount_permission.c:131-154 | index to name and name to index are inverse |
| `PackedFlags.WithAddsOne` | interfaces/innerkits/client/appspawn_msg.c:28-36 | setting an index adds it alone, unless no word covers it |
| `PackedFlags.ServerSeesWhatClientSet` | standard/appspawn_msgmgr.c:71-79 | with ceil(max / 32) words the server tests an index true if and only if the client set it |
| `PackedFlags.GetSpawnFlagIndexesFromPermissionBitmap` | modules/spm/spm_permission.c:47-95 | ors one bit per granted node into the words and writes nowhere else |
| `CommandLexer.Lexer.GetAllArguments` | modules/ace_adapter/command_lexer.cpp:30-103 | the loop computes the scan; an unterminated quote gives false and no arguments |
| `CommandLexer.LexRejects` | modules/ace_adapter/command_lexer.cpp:30-103 | it rejects exactly the texts whose last quote never closes |
| `CommandLexer.LexOfRendered` | modules/ace_adapter/command_lexer.cpp:30-103 | a line of tokens lexes to its words |
| `SpawnService.HandleEvent` | standard/appspawn_service.c:206-234 | one event of any kind keeps every law and does to the records exactly what `Step` says of it; the queue of descriptors changes only by the pool's nodes and the one of the kill-reason device |
| `SpawnService.ProcessSpawnReqMsg` | standard/appspawn_service.c:1466-1527 | refused at once, given up after its context was made, or forked for: what happens to the request, its context, its child, the reserved child and the killed one; which message, rebuilt or not, and which counts a new context holds; and exactly which counts are lost |
| `SpawnService.ForkAndWatch` | standard/appspawn_service.c:1505-1526 | from the PRE_FORK hook on: the context waits for its own child, or is answered and gone, and whose child had to go |
| `SpawnService.RebuildMessage` | modules/spm/spm.c:1142-1187 | counts first, then the message: its body is the rebuilt one exactly when token and uid are there, both counts were raised and there is one; which flags are set and which count leaks |
| `SpawnService.WatcherFires` | standard/appspawn_service.c:739-768 | a watcher answers and removes exactly the context of its client, with what becomes of its child; nobody's otherwise |
| `SpawnService.TimerFires` | standard/appspawn_service.c:1566-1583 | a timer answers and removes exactly the context of its client and kills its child |
| `SpawnService.ProcessRecvMsg` | standard/appspawn_service.c:2343-2431 | every kind of request enters the books once and does what its handler says |
| `ChildEvents.ProcessChildResponse` | standard/appspawn_service.c:1653-1705 | one answer and the context gone in the same step; on success exactly its record joins the processes, otherwise the child is given up |
| `ChildEvents.CompleteSpawn` | standard/appspawn_service.c:1663-1704 | the success part, which hands the child over to a process record |
| `ChildEvents.WaitChildTimeout` | standard/appspawn_service.c:1566-1583 | the child is killed, the request answered once, the context gone |
| `ChildEvents.HandleDiedPid` | standard/appspawn_service.c:175-204 | exactly what a death does: a dead reserve is forgotten, a process is buried with its control group, a spawning context is answered and counted, and nothing else changes |
| `ChildEvents.WaitChildDied` | standard/appspawn_service.c:1531-1564 | exactly the first spawning context of the dead child is answered and removed, its client id enters the crash history exactly when a signal killed it, and the spawner stops exactly when the counter reaches five; counter, recorded id and answer are stated on the context that goes |
| `ChildEvents.StopAppSpawn` | standard/appspawn_service.c:110-132 | the reserved child and every process are killed, their descriptors and counts released, the loop stopped |
| `ChildEvents.KillProcesses` | standard/appspawn_appmgr.c:123-133 | every process is killed with what its control group holds, and its record removed |
| `ChildEvents.HandleDiedApp` | standard/appspawn_service.c:185-203 | the record of a dead process goes, of all others nothing; nwebspawn remembers its status |
| `ChildEvents.KillProcessesByCGroup` | modules/common/appspawn_cgroup.c:143-172 | kills exactly the processes of the group that have no record, up to the first line that is no pid |
| `ChildEvents.ProcessChildProcessFd` | standard/appspawn_service.c:668-680 | a process that has ended: its group is killed, its record stays |
| `ChildEvents.SendMessageComplete` | standard/appspawn_service.c:283-301 | a process whose client could not be told of it is killed, its record stays; nobody else is |
| `ChildEvents.AppspawpnDevicedebugKill` | standard/appspawn_service.c:2171-2191 | exactly a recorded, debuggable process gets the signal, and only SIGKILL ends the spawner's concern for it |
| `ChildEvents.OnClose` | standard/appspawn_service.c:249-272 | exactly the contexts of the connection go, exactly their requests are given up, exactly their children are killed |
| `ChildEvents.ProcessUnlockChildResponse` | standard/appspawn_service.c:951-971 | one answer, the context gone |
| `ChildEvents.UnlockChildTimeout` | standard/appspawn_service.c:973-984 | the child killed, one answer, the context gone |
| `ChildEvents.GetProcessTerminationStatus` | standard/appspawn_appmgr.c:269-303 | status of a dead process, whose record goes; or of one killed for it, whose record and counts go; or -1 and nothing changes |
| `Prefork.ForkAndRegisterFds` | standard/appspawn_service.c:1087-1137 | a pre-forked child with one node of each pipe type, among any other nodes; or nothing at all: whichever step fails, no descriptor and no placeholder node survives |
| `Prefork.ProcessPreFork` | standard/appspawn_service.c:1212-1224 | fills the pool; an idle reserved child is never overwritten, and the other nodes stay |
| `Prefork.NormalSpawnChild` | standard/appspawn_service.c:1226-1232 | on success the context waits for its own child, on failure it has none |
| `Prefork.SendPipeMsgToChild` | standard/appspawn_service.c:1289-1311 | after a whole write the request pipe is closed; a write that fails or is cut short fails |
| `Prefork.HandToPreforked` | standard/appspawn_service.c:1399-1409 | the reserved child gets the fork message of this client and the context gets child and pipe; or the child is killed and nothing of it is left |
| `Prefork.AppSpawnProcessMsgForPrefork` | standard/appspawn_service.c:1378-1415 | all branches: which of them succeed, who the child is, which child had to go, and whether the pool is refilled |
| `Prefork.RunAppSpawnProcessMsg` | standard/appspawn_service.c:1446-1456 | when the spawn succeeds, and that the context then waits for its child |
| `Unlock.TryLevel1PreforkUnlock` | standard/appspawn_service.c:2445-2491 | the reserved child serves, with only the read end kept; or it is killed, all its descriptors are closed and the context is as before |
| `Unlock.ForkAndDoUnlockMount` | standard/appspawn_service.c:2564-2613 | a child forked for it serves, with only the read end kept; or the context is as before |
| `Unlock.TryUnlock` | standard/appspawn_service.c:2493-2535 | served by a child exactly when level 1 or level 2 works; otherwise nothing is left of the attempt; which children had to go; afterwards the pool is refilled exactly when pre-forking is on and the fork works |
| `Unlock.ProcessLockStatusMsg` | standard/appspawn_service.c:2236-2279 | whichever level serves it, an unlock request is answered at once or waits for a child that will |
| `Routing.PoolNode` | standard/appspawn_fd_manager.c:88-129 | a look-up of a pool node in the whole queue finds what the pool has, and taking it out leaves the other nodes |
| `Routing.PoolCleaned` | standard/appspawn_fd_manager.c:151-170 | cleaning up the reserved child's nodes empties the pool and leaves the other nodes |
| `ChildProcess.Child.PreforkChildLoop` | standard/appspawn_service.c:1157-1195 | a pre-forked child reads the first message of the pipe made for it and acts on it; what it writes then follows |
| `ChildProcess.Child.HandlePreforkForkMsg` | standard/appspawn_service.c:1030-1071 | takes over the client id and the pipe, answers a bad message as such and a good one by what becomes of the spawn, all on the inherited pipe |
| `ChildProcess.Child.HandlePreforkUnlockMsg` | standard/appspawn_service.c:986-1028 | answers with the result of the mount on the inherited pipe |
| `ChildProcess.Child.NotifyResToParent` | standard/appspawn_service.c:1707-1718 | one answer at most: the second call finds the descriptor closed |
| `ChildProcess.Child.AppSpawnChild` | common/appspawn_server.c:79-132 | tells the parent, once, the first of the failures of environment, spawning and reply; if there is none 0, or of appspawn's own child what its run failed with, if it did |
| `Images.PreforkedChild` | standard/appspawn_service.c:1112-1126 | a child that gives its pid to the two nodes before it answers and reads on exactly the pipes registered for it |
| `FdQueue.FdQueue.RegisterSpawningFds` | standard/appspawn_fd_manager.c:57-86 | appends a node exactly for a valid type, one to eight descriptors and enough memory |
| `FdQueue.FdQueue.UnregisterSpawningFdsByPid` | standard/appspawn_fd_manager.c:97-115 | closes what the first such node holds and drops it; fails exactly when there is none |
| `FdQueue.FdQueue.CleanupSpawningFdsByPid` | standard/appspawn_fd_manager.c:151-170 | closes and drops every node of the pid, in place, and counts them |
| `AppMgr.AppSpawnMgr.IncreaseRefCounts` | modules/spm/spm.c:880-913 | bits set for what was raised; a count leaks exactly when the token count was raised and the uid count is unsupported |
| `AppMgr.AppSpawnMgr.OnSpawnAbortUpdateRefCount` | modules/spm/spm.c:1218-1267 | gives up both counts of the context; exactly the counts it recorded and the kernel did not lower leak |
| `AppMgr.AppSpawnMgr.OnAppExitUpdateRefCount` | modules/spm/spm.c:1269-1307 | a bit of a process record goes exactly when its count was lowered |
| `AppMgr.AppSpawnMgr.ReplaceMessage` | modules/spm/spm.c:1087-1115 | a message of the same request, token and uid takes the place of the old one and every law holds on |
| `AppMgr.AppSpawnMgr.InitSpawnedProcessInfo` | standard/appspawn_service.c:1613-1637 | child and reference counts pass from context to a new record with token and uid of the message |
| `AppMgr.AppSpawnMgr.AddSpawnedProcess` | standard/appspawn_appmgr.c:155-181 | the record joins the queue, which stays strictly sorted by pid |
| `AppMgr.AppSpawnMgr.TerminateSpawnedProcess` | standard/appspawn_appmgr.c:183-207 | takes the record out; nwebspawn keeps the latest five |
| `AppMgr.AppSpawnMgr.TransferPreforkFdToForkCtx` | standard/appspawn_service.c:1338-1359 | the pipe of the first node of the child moves from the queue into the context, nothing is closed, the other nodes stay |
| `AppMgr.AppSpawnMgr.CountCrash` | standard/appspawn_service.c:1541-1550 | the crash counter, which tells how many consecutive clients up to the recorded one died by a signal |
| `Books.PidsDiffer` | standard/appspawn_appmgr.c:382-388 | no two contexts have the same child |
| `Books.MailSent` | standard/appspawn_service.c:1289-1311 | sending keeps the law that a child gets one message, and a fork message only for the context it serves |
| `Kernel.Kernel.Fork` | standard/appspawn_service.c:1112-1121 | a new child with the image it inherits: the descriptor queue, the open pipe ends, the pipe of the context at work |
| `Kernel.Kernel.Write` | standard/appspawn_service.c:1300-1304 | one message more in the pipe, a torn one, or nothing |

## Left out

- Kernel.Kernel.Fork: pids are never reused; `Guarantees.ReusedPid` says what reuse would do.
- SpmMessage.CollectTlvsInOrder: of a message with a record shorter than its head or of a type above TLV_MAX nothing is said: collecting stops with an error at the first, after copying whatever the table leads to, and indexes the offset table by the second.
- SpmMessage.BuildAndReplaceMessage: records that outgrow the 16-bit length field, which the code stores truncated, are excluded by `FitsLengthFields`.
- RebuildMeaning.RebuildPreservesMeaning: message flag records shorter than their own count are excluded; the decoder takes their count from the bytes behind them.
- HandOff.GetAppSpawnMsg: the mapping itself (file, mmap, unlink) is a buffer that parent and child share, or a failure in `Prefork.SpawnOutcome`.
- HandOff.ChildFinds: of a bundle record whose name is not terminated the check reads on behind the record; the condition is stated for terminated names, and `HandOff.GetAppSpawnMsg` for all.
- SpawnService.ProcessSpawnReqMsg: replies go to the message the context holds; the code passes the pointer it had before the rebuild, which may have been freed.
- SpawnService.Run: deaths that are reaped in the same SIGCHLD turn after the spawner stopped are not handled any more; contexts still waiting then are not released, as in the code.
- ChildProcess.Child.AppSpawnChild: after a cold start the new image reports by itself; the model says only that no more than one answer is written, and where.
- Sockets, SCM_RIGHTS descriptors (AddFd), timers, the event loop, mmap and file paths: each is a step that may fail; a block is sent whole.
- Allocation failures, except of queue nodes, process records, pipes and the rebuilt message.
- Block heads of 24 bytes and 64-bit layouts are constants; bytes are integers below 256, lengths are bounded explicitly.
- Wrap-around of the 32-bit client id and crash counters.
- The nwebspawn clone path, and what runs inside a child besides reading its one message and answering.
- Checkpoint and image process requests with their nodes in the descriptor queue, begetctl, dump, remount and signal-observe messages: they are answered at once or not modelled.
- The killing of processes an earlier spawner left behind, before the first event.
- The text of a lock status request is given as the user it unlocks, if any; message memory after an asynchronous unlock.
- Result codes of responses: responses are counted.
- What is written to the kill-reason device, and the contents of control group files beyond the pids in them; the Linux switch that skips SPM.
- Signal information files, hisysevent, statistics, logging.
- Stopping of the cj and native spawners when both queues are empty.
- Special group ids of the DAC setter: the payload is given.
- For the rebuild: the JIT permission text and the permission query are inputs.
- Mounting, sandbox configuration, SELinux, seccomp, capabilities, creation of control groups: no state the laws speak of.
- The lite variant, hnp, Python configuration merger.
