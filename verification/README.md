# Verified models of ModLoader's stateful cores

ModLoader loads WebAssembly plugins into an emulator. This project models the parts of its client and SDK
whose correctness rests on state that many steps change, and proves what those parts promise. `dafny verify
dfyconfig.toml` checks everything. Each module has the form of the file it models: what the C++ changes in
place is a class whose methods are proved against functions, and the promises are proved about the functions.

- **Guest record layouts** (`GuestLayout*.dfy`): reflow, edits and the memoised resolver of nested records,
  over 64-bit arithmetic with its wraps.
- **Worker pool** (`TaskPool*.dfy`): every critical section of the scheduler as a transition, any interleaving.
- **Lobby** (`Lobby*.dfy`): the server's handlers and rounds, the client's peer list, and their agreement.
- **UDP channel** (`Datagram.dfy`): nonces and the 64-bit replay window.
- **Wasm objects** (`Leb128.dfy`, `Wasm*.dfy`): reading, renaming and writing relocatable objects.
- **Dependency planning** (`Module*.dfy`): lazy depth-first order, union-find with path halving, link plans.
- **Packet sockets** (`Packets.dfy`, `PacketStreams.dfy`): framing, partial sends, chunked receives, budgets.
- **Texture sources** (`Texture*.dfy`), **SHA-1** (`Sha1*.dfy`), **scratch memory** (`Scratch.dfy`) and
  **guest memory** (`GuestMemory.dfy`, `GuestAccess.dfy`, `GuestMapping.dfy`).

What an operation does is also said without its definition: `GuestLayoutPlacement` gives every field's place after
an edit, `LobbyServerAnswers` the answer to every message, `TaskPoolCapacity` when a submission is accepted and
served, `ModulePlan` what is in a link plan and in which order, `TextureEffects` the outcome of every texture
operation, `WasmBytes` symbols and a whole object by their bytes, `Sha1Vector` a digest, `GuestMapping` where a
guest byte lives.

`Machine.dfy` defines 64-bit words, masks and shifts on bounded naturals, `Options.dfy` optional results.

Four promises turned out to need a condition, which is stated and proved exactly:

- The published layout values depend on the order of a hash table exactly when two records publish different
  values under one key. Which keys a record enters is known from its registration, so keys that differ exclude
  it, and so do names without dots (`GuestLayoutNames`); `A` with a field `x` beside a record `A.x` is an
  example (`GuestLayoutValues`).
- The output of `Wasm_Localize` can be read exactly when its linking section still fits a 32-bit size; the
  code writes larger sizes without noticing (`WasmRoundTrip.LocalizedSays`).
- Texture sources stay in the order of their preferences exactly when no owner and valid id was saved twice
  (`TexturePreferences.OrderNeedsDistinct`); a preferences file may hold duplicates, and then a move can lose it.
- Removing a range just inserted restores a record exactly when no field straddles the insertion point
  (`GuestLayoutEdits.RemovalUndoesInsertion`).

The agreement of the lobby's replicas needs both of its premises: `LobbyServerExamples` has a run that fails
without each.

The buffer-full close in `Read_Stream` is unreachable for every peer, not only for well-formed ones
(`PacketStreams.PacketState.Fill`).

## Model

| member | source | states |
|---|---|---|
| GuestLayout.AlignedSize | client/src/guest_layout.cpp:22-28 | succeeds exactly for a power-of-two alignment and no wrap, with the least multiple at or above the size |
| GuestLayout.Shift | client/src/guest_layout.cpp:30-44 | moves a value by the signed distance, exactly when the result is a 64-bit value |
| GuestLayout.FollowingSorted | client/src/guest_layout.cpp:51-58 | the stable sort lists exactly the following present fields, once, by offset and then by position |
| GuestLayout.ReflowKeepsOrder | client/src/guest_layout.cpp:46-101 | after a reflow of ordered, disjoint following fields they stay in order, disjoint, aligned, past the new end, inside the record, with no wrap |
| GuestLayout.ReflowMovesByShift | client/src/guest_layout.cpp:59-101 | aligned fields all move by exactly the shift when it is a multiple of every alignment |
| GuestLayout.ReflowApart | client/src/guest_layout.cpp:59-87 | disjoint fields stay disjoint, even when empty fields share an offset with others |
| GuestLayout.ReflowAround | client/src/guest_layout.cpp:46-101 | a reflow around a changed field keeps all other fields disjoint and moves only those at or past its old end |
| GuestLayoutPlacement.ReflowDecided | client/src/guest_layout.cpp:59-87 | listed fields are reflowed exactly when they can be placed one after the other, each at the least multiple of its alignment behind the last one and its old gap, and then stand there |
| GuestLayoutPlacement.FlowDecided | client/src/guest_layout.cpp:46-101 | a reflow of a record succeeds exactly when its following fields and its end can be placed; then it says every field and the size, with the tail padding there was |
| GuestLayoutPlacement.FieldEditDecided | client/src/guest_layout.cpp:149-182 | an edit of a field succeeds exactly when a first field of that name is there and its effect can be had: the field goes to the given offset, else to the next multiple of a given alignment, else stays; its size, alignment and absence, the record's alignment, and the other fields, still or reflowed, are stated |
| GuestLayoutPlacement.RecordEditSets | client/src/guest_layout.cpp:114-117 | a record edit sets the size, the alignment, or both, as it carries them |
| GuestLayoutPlacement.InsertionDecided | client/src/guest_layout.cpp:119-147 | an insertion succeeds exactly in a record that is no union and when no sum wraps; then the size grows by it, present fields at or behind the offset move by it, and nothing else changes |
| GuestLayoutPlacement.RemovalDecided | client/src/guest_layout.cpp:119-143 | a removal succeeds exactly in a record that is no union, at most its size, and when no field straddles its ends; then fields in its range are absent, those behind it move by its size, and nothing else changes |
| GuestLayoutPlacement.EditsInOrder | client/src/guest_layout.cpp:241-255 | edits of two lists apply in order, one list after the other, and edits of other records do nothing |
| GuestLayoutPlacement.NestedDecided | client/src/guest_layout.cpp:213-239 | a nested field is fitted to its child exactly when it can be: its new alignment, place and size, and what follows it, are stated |
| GuestLayoutPlacement.SizeOfRecord | client/src/guest_layout.cpp:257-280 | a record is closed exactly when its end and its alignment allow it, and then has the set size, or the least multiple of its alignment that holds what it held |
| GuestLayoutEdits.InsertionKeepsOrder | client/src/guest_layout.cpp:119-147 | an insertion keeps the order and disjointness of present fields, moves exactly those from the offset on by its size, and changes nothing else |
| GuestLayoutEdits.RemovalKeepsOrder | client/src/guest_layout.cpp:119-143 | a removal drops exactly the fields inside its range, moves those behind it by its size, and keeps the order and disjointness of the rest |
| GuestLayoutEdits.RemovalUndoesInsertion | client/src/guest_layout.cpp:103-147 | removing a range just inserted succeeds and restores the record exactly when no field straddles the insertion point |
| GuestLayoutResolution.AcceptedContainsItsFields | client/src/guest_layout.cpp:257-280 | an accepted record contains all its present fields, and its size is a multiple of its alignment unless an edit set it |
| GuestLayoutResolution.ResolveFieldKeepsRegular | client/src/guest_layout.cpp:213-239 | fitting one nested field to its child keeps a record without overlaps or wraps in that state |
| GuestLayoutResolution.ChildResolutionKeepsDisjoint | client/src/guest_layout.cpp:203-239 | child resolution of a non-union record keeps its fields disjoint and sizes each nested field as count times the child |
| GuestLayoutResolution.SmallerStack | client/src/guest_layout.cpp:192-201 | what resolved below other records resolves the same below fewer of them |
| GuestLayoutResolution.UnreachedStack | client/src/guest_layout.cpp:192-201 | records being resolved that are never reached make no difference |
| GuestLayoutResolution.ReachesOnlyFresh | client/src/guest_layout.cpp:197-211 | a record that resolves reaches only registered records that are not being resolved |
| GuestLayoutResolution.ResolvedGraphIsAcyclic | client/src/guest_layout.cpp:192-211 | if every record resolves, the reference graph is closed and has no cycle |
| GuestLayoutResolver.RecordLayout.ShiftFollowing | client/src/guest_layout.cpp:46-110 | the two-cursor loop in place computes the function of the same name, in both modes |
| GuestLayoutResolver.RecordLayout.ApplyEdit | client/src/guest_layout.cpp:112-182 | every kind of edit in place computes its function, and fails exactly when it does |
| GuestLayoutResolver.RecordLayout.ResolveNested | client/src/guest_layout.cpp:218-238 | realigning and resizing a nested field in place computes its function |
| GuestLayoutResolver.Resolver.Record | client/src/guest_layout.cpp:192-281 | the memoised resolver succeeds exactly when the plain recursive definition does, stores exactly its meaning, and terminates |
| GuestLayoutValues.Resolve | client/src/guest_layout.cpp:392-415 | for any visiting order, succeeds exactly when every record resolves by itself and publishes exactly those meanings |
| GuestLayoutValues.PublishLookup | client/src/guest_layout.cpp:404-412 | a published value is what the first listed record with that key entered |
| GuestLayoutValues.OrderIndependence | client/src/guest_layout.cpp:392-415 | the published values are independent of the hash order exactly when no two records disagree about a key |
| GuestLayoutValues.DotFreeNamesAgree | client/src/guest_layout.cpp:404-412 | records whose names contain no dot never disagree about a key |
| GuestLayoutValues.DottedNamesCanCollide | client/src/guest_layout.cpp:392-412 | registered as they are, `A` with a field `x` and `A.x` both resolve, to themselves, and the published size of the field depends on the listing order |
| GuestLayoutNames.ResolvedShape | client/src/guest_layout.cpp:192-281 | a record that resolves keeps the fields it was registered with: their number, names and order |
| GuestLayoutNames.PublishedValues | client/src/guest_layout.cpp:404-412 | a record publishes its size, its alignment, and the offset and size of every field, all ones for an absent one |
| GuestLayoutNames.KeysKnownBefore | client/src/guest_layout.cpp:404-412 | whatever the profile, a resolved record enters exactly the keys that its registration names |
| GuestLayoutNames.DotFreeKeysApart | client/src/guest_layout.cpp:404-412 | registered names without dots keep all keys apart |
| GuestLayoutNames.KeysApartOrdersAlike | client/src/guest_layout.cpp:392-415 | when no two registered records name the same key, every profile that resolves publishes the same values in any order |
| TaskPool.PoolAlwaysConsistent | client/src/tasks.cpp:47-62 | whenever the lock is free, in every interleaving: ready flag, queue entry, waiting job and idle context agree, and contexts never exceed workers |
| TaskPool.WorkerRefs | client/src/tasks.cpp:85-115 | whatever a worker refers to when it takes the lock again still exists |
| TaskPool.TakeKeeps | client/src/tasks.cpp:79-94 | dequeuing keeps the invariant, and the owner, job and context it dereferences exist |
| TaskPool.FinishKeeps | client/src/tasks.cpp:104-117 | finishing a job keeps the invariant, both when the context settles and when it retires with the lock dropped |
| TaskPool.ResumeKeeps | client/src/tasks.cpp:111-117 | coming back after destroying a retired context keeps the invariant |
| TaskPool.SubmitKeeps | client/src/tasks.cpp:139-181 | a submission keeps the invariant on each of its exits |
| TaskPool.ServedInQueueOrder | client/src/tasks.cpp:85-87 | an owner at position k of the ready queue is served after exactly k other dequeues |
| TaskPool.JobsInSubmissionOrder | client/src/tasks.cpp:89-90 | jobs handed to workers are the accepted jobs of each owner, each once, in submission order |
| TaskPool.TakeHandsOutNextJob | client/src/tasks.cpp:88-92 | a dequeue hands out the first accepted job that no worker has had |
| TaskPool.SubmitAppends | client/src/tasks.cpp:126-181 | a submission appends its job to the accepted ones exactly when it reports success |
| TaskPool.DrainedIsUnreferenced | client/src/tasks.cpp:183-194 | a drained owner is in no queue and no worker refers to it |
| TaskPool.ReleasedIsGone | client/src/tasks.cpp:217-234 | after release an owner has no entry, queue entry or worker in any later state, its jobs were all taken, and later submissions are refused |
| TaskPoolCapacity.WaitingMeansAllWorkersServe | client/src/tasks.cpp:47-62 | in every run an owner has contexts for all its waiting and running jobs or for all workers, so a job waits outside the ready queue only while every worker runs a job of its owner |
| TaskPoolCapacity.SubmissionDecided | client/src/tasks.cpp:139-181 | a submission is refused exactly when the pool or the module stops, no worker starts, the owner is being drained, or a context that is missing cannot be made; otherwise the job is last in line |
| TaskPoolCapacity.ContextGivenUp | client/src/tasks.cpp:104-117 | a worker back from a job destroys its context exactly when no job of the owner waits and it is not the last one |
| TaskPoolCapacity.OverFrom | client/src/tasks.cpp:217-234 | stopping the pool, or halting, disabling or releasing a module, puts an end to submissions |
| TaskPoolCapacity.RefusedForGood | client/src/tasks.cpp:126-142 | after that a submission is refused in every later state, and once the pool has stopped no job is handed out |
| TaskPoolThreads.Threads.WorkerTake | client/src/tasks.cpp:79-94 | the critical section on the shared fields does what the transition does |
| TaskPoolThreads.Threads.WorkerFinish | client/src/tasks.cpp:104-117 | the critical section after a job does what the transition does |
| TaskPoolThreads.Threads.WorkerResume | client/src/tasks.cpp:113-117 | the critical section after a retirement does what the transition does |
| TaskPoolThreads.Threads.SubmitJob | client/src/tasks.cpp:139-181 | the critical section of a submission, with the loop that starts workers, does what the transition does |
| TaskPoolThreads.Threads.BeginDrain | client/src/tasks.cpp:183-192 | the locked beginning of a drain does what the transition does |
| TaskPoolThreads.Threads.TakeOwner | client/src/tasks.cpp:220-229 | taking a drained owner out of the table does what the transition does |
| LobbyMembers.AddPeersExactly | client/src/network/lobby_client.cpp:181-195 | a list of peers is taken over whole, in order, exactly when they differ from each other and from the client in identifier and key |
| LobbyMembers.DropOnePeer | client/src/network/lobby_client.cpp:566-585 | dropping an identifier that occurs once removes just that peer |
| LobbyMembers.FoldPrefix | client/src/network/lobby_client.cpp:538-564 | a client that has not failed refused no earlier message |
| LobbyClient.Client.AddPeer | client/src/network/lobby_client.cpp:181-195 | refuses exactly the client's own and known identifiers and keys, else appends |
| LobbyClient.Client.ReadMembers | client/src/network/lobby_client.cpp:387-403 | succeeds exactly when every listed peer can be added in turn |
| LobbyClient.Client.HandleMessage | client/src/network/lobby_client.cpp:538-635 | the peer list after each message is the one the replica functions give |
| LobbyClient.Client.HandleAll | client/src/network/lobby_client.cpp:538-635 | the object ends as the fold of all messages, and fails exactly when it does |
| LobbyServerSteps.EnterKeeps | client/src/network/lobby_server.cpp:186-215 | entering a lobby keeps every invariant, and everybody's messages tell the new membership |
| LobbyServerSteps.LeaveKeeps | client/src/network/lobby_server.cpp:217-240 | leaving a lobby keeps every invariant; an empty lobby is closed |
| LobbyServerHandlers.RequestKeeps | client/src/network/lobby_server.cpp:304-362 | each outcome of a lobby request keeps every invariant |
| LobbyServerHandlers.ReadyKeeps | client/src/network/lobby_server.cpp:364-415 | relaying and server messages keep every invariant |
| LobbyServerArrivals.EvictedKeeps | client/src/network/lobby_server.cpp:280-297 | after the eviction loop no live connection has the identity or key of the arriving one |
| LobbyServerArrivals.IdentityKeeps | client/src/network/lobby_server.cpp:263-302 | proving an identity keeps every invariant |
| LobbyServerRuns.CloseDeadKeeps | client/src/network/lobby_server.cpp:548-554 | the closing loop, which swaps with the last connection, removes every connection that was dead when it began |
| LobbyServerRuns.ActKeeps | client/src/network/lobby_server.cpp:556-628 | everything that happens in a round keeps every invariant |
| LobbyServerRuns.LobbiesAlwaysConsistent | client/src/network/lobby_server.cpp:186-240 | in every run: a connection is in a lobby exactly when the lobby lists it, once; no lobby is empty; names are unique; live clients differ in identifier and key |
| LobbyServerRuns.LobbyIdsUnique | client/src/network/lobby_server.cpp:177-184 | below 2^32 creations no two lobbies share an identifier, so a host message reaches the lobby it names |
| LobbyServerRuns.LogTellsTheLobbies | client/src/network/lobby_server.cpp:150-166 | below 2^32 creations, replaying the events gives the lobbies, their names and their member multisets |
| LobbyServerWaiting.WireIsQueued | client/src/network/lobby_server.cpp:601-616 | in every run, under any partial sends, what has left for a client is a beginning of what was queued to it |
| LobbyServerWaiting.PromisesKept | client/src/network/lobby_server.cpp:556-628 | when `Main` goes through its rounds and clients ask only after their `Welcome` has left, no request is ever handled in the round of its sender's hello, and no used key comes back |
| LobbyServerWaiting.ReplicasAgree | client/src/network/lobby_server.cpp:186-240 | in every run in rounds, with fresh keys and clients that read `Welcome` before they ask: the messages queued to a live member fold to the lobby's other members, and what has left for it was not refused |
| LobbyServerExamples.ImpatientClientFails | client/src/network/lobby_server.cpp:263-302 | a run in rounds with fresh keys in which one request comes before its `Welcome` has left: that client is let in and fails |
| LobbyServerExamples.ReusedKeyFails | client/src/network/lobby_server.cpp:273-279 | a run in rounds with clients that wait in which one signing key is used twice: the second client is let in and fails |
| LobbyServerRuns.EntryAcceptedIffStranger | client/src/network/lobby_server.cpp:186-202 | a client keeps the list it is handed exactly when no member has its identifier or key |
| LobbyServerRuns.MemberCountFits | client/src/network/lobby_server.cpp:186-192 | the sixteen-bit member count never truncates |
| LobbyServerAdmission.OnlyWithProof | client/src/network/lobby_server.cpp:263-362 | in every run: a ready client has proved the identity it counts under, and whoever is in a lobby has sent that lobby's name and verifier, to open it or to join it |
| LobbyServerAnswers.JoinAnswered | client/src/network/lobby_server.cpp:344-361 | a client that asks to join is in the named lobby afterwards exactly when the request is complete, there is such a lobby, and the verifiers agree; with a wrong one the lobbies are as before, the client is closing and hears at most `LobbyRefused` |
| LobbyServerAnswers.CreateAnswered | client/src/network/lobby_server.cpp:320-343 | a complete request to create opens a lobby with the client as its only member unless the name is taken, and then is refused |
| LobbyServerAnswers.QueryAnswered | client/src/network/lobby_server.cpp:304-319 | a query is answered by whether there is such a lobby, and changes nothing else |
| LobbyServerAnswers.SendAnswered | client/src/network/lobby_server.cpp:364-414 | a message to a lobby is queued to exactly the other members, one to a member to exactly those with that identifier in the lobby, by the luck of their queues; any other sender is sent away |
| LobbyServerAnswers.HostMessageAnswered | client/src/network/lobby_server.cpp:364-414 | a message to the host is logged with the sender's lobby, and nobody is queued anything |
| LobbyServerAnswers.NonsenseAnswered | client/src/network/lobby_server.cpp:364-463 | other messages from a ready client end its connection, with a goodbye, or without one if they do not authenticate |
| LobbyServerAnswers.DeafAnswered | client/src/network/lobby_server.cpp:417-463 | nothing that comes from a dead or closing connection changes anything |
| LobbyServerAnswers.DatagramAnswered | client/src/network/lobby_server.cpp:505-534 | over UDP a member's message to the host is logged, a broken message ends its connection, and nothing is queued to any client |
| LobbyServerAnswers.OutgoingAnswered | client/src/network/lobby_server.cpp:129-166 | a message of the host is queued to exactly the selected members of the lobby with that number |
| LobbyServerAnswers.HelloAnswered | client/src/network/lobby_server.cpp:242-261 | the first message decides: after an accepted hello an identity may follow, otherwise the connection is dead |
| LobbyServerAnswers.AcceptAnswered | client/src/network/lobby_server.cpp:536-546 | a new connection is unproven, in no lobby and last in the table, which holds at most 1024 |
| LobbyServerAnswers.IdentityAnswered | client/src/network/lobby_server.cpp:263-302 | a client becomes ready exactly with a proof that holds and a key that no live connection has; its namesakes are dead, or closing and in no lobby |
| LobbyServerAnswers.EarlyAnswered | client/src/network/lobby_server.cpp:417-463 | before its identity a client that sends anything else is sent away, or dropped if it does not authenticate |
| LobbyServerAnswers.RoundEnds | client/src/network/lobby_server.cpp:548-628 | the end of a round closes every connection that was dead, and of the others only those that die while it does |
| LobbyServerMain.Hall.Enter | client/src/network/lobby_server.cpp:186-215 | the loops over members on the object's fields do what the transition does |
| LobbyServerMain.Hall.Leave | client/src/network/lobby_server.cpp:217-240 | erasing and notifying on the fields do what the transition does |
| LobbyServerMain.Hall.Prove | client/src/network/lobby_server.cpp:263-302 | the key check and the eviction loop on the fields do what the transition does |
| LobbyServerMain.Hall.Request | client/src/network/lobby_server.cpp:304-362 | each branch of a lobby request on the fields does what the transition does |
| LobbyServerMain.Hall.Relay | client/src/network/lobby_server.cpp:409-414 | the relaying loop sends to exactly the recipients, each once |
| LobbyServerMain.Hall.Take | client/src/network/lobby_server.cpp:417-463 | one turn of the input loop, with its early exits, does what the transition for one message does |
| LobbyServerMain.Hall.Close | client/src/network/lobby_server.cpp:548-554 | swapping with the last connection and dropping it does what the transition does |
| LobbyServerMain.Hall.CloseAllDead | client/src/network/lobby_server.cpp:618-622 | the downward loop closes what the transition closes |
| LobbyServerMain.Hall.Perform | client/src/network/lobby_server.cpp:556-628 | whatever happens in a round, on the object's fields, does what the transition does and keeps every invariant |
| LobbyServerMain.Hall.PerformAll | client/src/network/lobby_server.cpp:556-628 | the object ends any run in the state of that run, so what is proved of runs holds of the object |
| Datagram.WindowRefines | client/src/network/datagram.cpp:38-59 | the bitmap accepts exactly the numbers that are new and less than 64 behind every accepted one, and mirrors the accepted set after each |
| Datagram.NothingTwice | client/src/network/datagram.cpp:32-61 | in every run: only sealed datagrams are accepted, none twice, and answers go to where the highest accepted one came from |
| Datagram.FreshArrives | client/src/network/datagram.cpp:38-59 | in every run a sealed datagram is accepted exactly when its number is fresh |
| Datagram.NoncesUnique | client/src/network/datagram.cpp:16-30 | in every run `Seal` uses the number of datagrams sealed before as its nonce, which is new, or fails |
| Datagram.RunSound | client/src/network/lobby_server.cpp:523-527 | the window, the receipts and the answering address agree in every run |
| Datagram.Channel.Seal | client/src/network/datagram.cpp:16-30 | fails exactly for a long message or when the numbers are used up, and counts up by one |
| Datagram.Channel.Open | client/src/network/datagram.cpp:32-61 | accepts exactly what the window and authentication allow, and changes nothing otherwise |
| Leb128.DecodeEncode | client/src/wasm_object.cpp:36-53 | a number survives encoding and decoding exactly when it fits the bits, and what follows is left alone (section 5.2.2 of the WebAssembly Core Specification) |
| WasmRoundTrip.ReadGood | client/src/wasm_object.cpp:244-279 | what is read has a name exactly where bit 4 of the flags is clear or bit 6 set, a range exactly where bit 4 is clear, one linking section, and one symbol table in it |
| WasmRoundTrip.ReadWrite | client/src/wasm_object.cpp:72-89 | what is written is read back, exactly when its section sizes fit 32 bits |
| WasmRoundTrip.LocalizedSays | client/src/wasm_object.cpp:244-282 | reading a localized object gives the original with only private names prefixed, exactly when sizes fit |
| WasmRoundTrip.OnlyLinkingGrows | client/src/wasm_object.cpp:253-270 | only the linking section can outgrow its size |
| WasmRoundTrip.LongPrefixOutgrows | client/src/wasm_object.cpp:139-147 | once the comdats of one table together receive four gigabytes of prefix, the output cannot be read |
| WasmRoundTrip.LongNameOutgrows | client/src/wasm_object.cpp:244-282 | a small object with two comdats, given by its bytes, can be read, and its localized form cannot for any module name of two gigabytes or more |
| WasmRoundTrip.OnlyPrivateNamesChange | client/src/wasm_object.cpp:99-108 | a symbol's name gets the prefix exactly when it is defined, hidden and not exported; all else of it stays |
| WasmRoundTrip.PrivateNamesDiffer | client/src/wasm_object.cpp:251-251 | private names of different modules or symbols never coincide |
| WasmBytes.NumberMeans | client/src/wasm_object.cpp:36-53 | a number is read exactly from bytes of 128 and more up to one below, is the sum of their lower seven bits by place, and fits the bits asked for |
| WasmBytes.NumberMustEnd | client/src/wasm_object.cpp:36-53 | bytes without one below 128 are no number |
| WasmBytes.IndexedSymbolRead | client/src/wasm_object.cpp:91-137 | the bytes of a function, global, tag or table symbol: kind, flags, index, and a name exactly when bit 4 is clear or bit 6 set |
| WasmBytes.DataSymbolRead | client/src/wasm_object.cpp:91-137 | the bytes of a data symbol: kind, flags, name, and a range exactly when bit 4 is clear |
| WasmBytes.SectionSymbolRead | client/src/wasm_object.cpp:91-137 | the bytes of a section symbol: kind, flags, index |
| WasmBytes.OtherSymbolsRefused | client/src/wasm_object.cpp:91-137 | a kind above five is refused |
| WasmBytes.LocalizedBytes | client/src/wasm_object.cpp:244-282 | an object with symbols of each kind, byte by byte, and the bytes of its localized form |
| WasmRewriter.Reader.Number | client/src/wasm_object.cpp:36-53 | the shift-and-or loop decodes LEB128, and turns invalid exactly when there is no such number |
| WasmRewriter.Writer.Number | client/src/wasm_object.cpp:72-78 | the loop appends the shortest encoding |
| WasmRewriter.CopySymbols | client/src/wasm_object.cpp:91-137 | succeeds exactly for a whole symbol table and writes it renamed |
| WasmRewriter.CopyComdats | client/src/wasm_object.cpp:139-162 | succeeds exactly for a whole comdat table and writes it renamed |
| WasmRewriter.CopyLinking | client/src/wasm_object.cpp:164-196 | succeeds exactly for version 2 with one symbol table and writes the subsections in order |
| WasmRewriter.Localize | client/src/wasm_object.cpp:244-282 | succeeds exactly when the object can be read, and then is what reading, renaming and writing give; otherwise nothing changes |
| ModuleGraph.SameAlongPath | client/src/module_graph.cpp:205-210 | what agrees along every edge agrees along every path |
| ModuleOrder.NeedsBefore | client/src/module_graph.cpp:163-216 | what a completed module needs was completed before it, whatever is read later |
| ModuleOrder.TrackedNext | client/src/module_graph.cpp:346-350 | the order lists modules by the first root that needs them, after each further visit |
| ModuleSet.HalvingKeepsRoots | client/src/module_graph.cpp:236-242 | path halving changes no root and moves strictly toward it |
| ModuleSet.EdgeJoins | client/src/module_graph.cpp:210-210 | joining two roots keeps roots and connectivity by edges the same thing |
| ModuleSet.Selection.Group | client/src/module_graph.cpp:236-242 | terminates, returns the root, and changes no root |
| ModuleSet.Selection.Read | client/src/module_graph.cpp:51-161 | returns a copy of the file its canonical path leads to, reads a file once per path and a module once per name, refuses other versions and taken folders, adds at most one unseen module, and fails for no file among those that fit together |
| ModuleSet.Selection.Visit | client/src/module_graph.cpp:163-216 | terminates with lazy discovery; a successful visit completes the module and, in dependency order, only what it needs; among files that fit together it succeeds |
| ModuleSet.Selection.Groups | client/src/module_graph.cpp:218-228 | the groups are the nonempty classes of the forest in visiting order |
| ModulePlan.PlanLinkable | client/src/module_graph.cpp:346-361 | a completed selection gives each module once, dependencies first, the connected components as groups, one runtime each |
| ModulePlan.ByName | client/src/module_graph.cpp:337-344 | the visiting order is a permutation sorted by name |
| ModulePlan.BeforeMeans | client/src/module_graph.cpp:342-344 | a name is before another when they differ first in a smaller character, or it ends where the other goes on |
| ModulePlan.PlanInNameOrder | client/src/module_graph.cpp:337-361 | everything in a plan is needed by a requested module, and in a group what is needed under an earlier requested name comes first |
| ModulePlan.PrepareLink | client/src/module_graph.cpp:320-361 | a returned plan is linkable in that sense, holds a copy of every requested file and only what is needed, in the order of the requested names; its modules are what their files say, share no name or folder, run on the runtimes they were built against, and depend on the files beside them; a plan is returned whenever the files exist and agree, dependencies lead back nowhere, and each has a file beside its dependent or was requested |
| Packets.DecodeEncode | client/src/network/packets.cpp:11-49 | what was encoded is decoded, whatever follows |
| Packets.DecodePrefix | client/src/network/packets.cpp:29-43 | a proper beginning of an encoding is incomplete, never invalid |
| Packets.InvalidExactly | client/src/network/packets.cpp:29-49 | bytes are invalid exactly for a wrong magic, a type of no or too many bytes or with a control character, or a payload that is too large |
| Packets.FrameBytes | client/src/network/packets.cpp:11-27 | one packet byte by byte |
| Packets.EncodeDecode | client/src/network/packets.cpp:29-49 | only encodings are decoded |
| Packets.EncodePacket | client/src/network/packets.cpp:11-27 | filling the buffer in place gives the encoding, exactly for a valid type and a small payload |
| Packets.StreamDecodes | client/src/network/packets.cpp:29-49 | the beginning of a stream of packets decodes to its first packet or is incomplete |
| PacketStreams.PacketState.SendPacket | client/src/net.cpp:162-197 | accepts exactly what fits the queue limits, and appends its encoding to what is pending |
| PacketStreams.PacketState.FlushPackets | client/src/net.cpp:352-398 | what moved and what is still pending are what was pending; each call asks for what is left of the first packet, as far as the budget pays; budgets never underflow; it fails exactly when a call was refused, and otherwise ends only for a reason: nothing left, a budget spent, an inactive socket, nothing taken, or a datagram too large for the rest |
| PacketStreams.PacketState.Fill | client/src/net.cpp:458-476 | with an incomplete packet there is always room to receive, so the close for a full buffer cannot happen; it asks for exactly what room, chunk and budgets allow |
| PacketStreams.PacketState.ReadStream | client/src/net.cpp:427-495 | input and wire are the encodings of the packets taken, then what is left, under any chunking and budgets; it closes the socket exactly for an invalid packet or a failed receive, and otherwise ends only for a reason |
| PacketStreams.Connection.Send | client/src/net.cpp:162-197 | an accepted packet joins those sent, a refused one leaves no trace, and the conservation law is kept |
| PacketStreams.Connection.Read | client/src/net.cpp:427-495 | the packets taken are the next ones sent, in order, and a well-formed stream is never closed as bad; with budget and a willing socket something is taken or received |
| PacketStreams.Connection.Flush | client/src/net.cpp:352-398 | sending parts of packets keeps sent equal to taken plus what is on its way; with budget and a willing socket something leaves |
| PacketStreams.Connection.Drained | client/src/net.cpp:352-495 | when nothing is on its way, everything sent was taken |
| PacketStreams.Connection.Settle | client/src/net.cpp:550-606 | served again and again by willing sockets, a stream empties: every packet sent is delivered, in order |
| Textures.CreateKeeps | client/src/textures.cpp:48-82 | creating keeps sources strictly sorted by preference rank, with saved flags and handles of their own |
| Textures.MoveKeeps | client/src/textures.cpp:129-147 | swapping two sources with their preferences keeps every rank in its place |
| Textures.AlwaysOrdered | client/src/textures.cpp:41-265 | with distinct preferences, every sequence of operations and of the critical sections of `Dispatch` keeps the order, the flags and the handles |
| Textures.AlwaysSaved | client/src/textures.cpp:48-147 | however the preferences were saved, every source has one in every run, so the ranks that index them are inside |
| TexturePreferences.OrderNeedsDistinct | client/src/textures.cpp:41-147 | starting from saved preferences, every sequence of operations keeps the order exactly when no owner and valid id is saved twice |
| Textures.Recreated | client/src/textures.cpp:48-96 | a source destroyed and created again stands where it stood with the flag it had |
| Textures.UnchangedRevisionFinds | client/src/textures.cpp:189-265 | while the revision matches and has not come round, every source with a pending event still exists |
| TextureManager.Manager.Create | client/src/textures.cpp:48-82 | the method on the fields does what the function does |
| TextureManager.Manager.Enable | client/src/textures.cpp:110-127 | the method on the fields does what the function does, for any saved preferences |
| TextureManager.Manager.Move | client/src/textures.cpp:129-147 | the method on the fields does what the function does, for any saved preferences |
| TextureManager.Manager.BeginDispatch | client/src/textures.cpp:194-218 | drops exactly the sources of disabled modules, counted as one change if there were any, keeps all else, and lists enabled paths from last to first |
| TextureManager.Manager.ApplyState | client/src/textures.cpp:230-245 | unless the revision changed, sets every state and lists exactly the events for changed states and places |
| TextureManager.Manager.NoteEvent | client/src/textures.cpp:247-263 | stops when the revision changed, and otherwise always finds the source it notes |
| TextureManager.Manager.Dispatch | client/src/textures.cpp:189-265 | the three critical sections in turn, with anything done by others in between, do what the function does; every source a module is told of exists |
| TextureDispatch.DispatchKeeps | client/src/textures.cpp:189-265 | whatever others do meanwhile, a dispatch keeps the order, the flags and the handles |
| TextureDispatch.DispatchSettles | client/src/textures.cpp:230-263 | left alone, it tells every pending event once, in order, and leaves none |
| TextureDispatch.DispatchRepeats | client/src/textures.cpp:189-265 | done again with the same answer, it changes nothing and tells nobody |
| TextureEffects.CreateDecided | client/src/textures.cpp:48-82 | a source is created unless a text is empty or cut, handles are used up, or its owner has one of that id; it gets the next handle, its saved flag or the given one, and the place before the first source saved later |
| TextureEffects.EnableDecided | client/src/textures.cpp:111-127 | a source gets the flag, the state that goes with it and the saved flag, counted as one change, or nothing happens |
| TextureEffects.MoveDecided | client/src/textures.cpp:129-147 | a source and its preference change places with those at the target, or nothing happens at an end |
| TextureEffects.ReloadDecided | client/src/textures.cpp:149-158 | a reload of a known source counts as a change and is none |
| TextureEffects.KeptExactly | client/src/textures.cpp:90-104 | erasing keeps exactly the sources that do not meet the condition |
| TextureEffects.KeepDecided | client/src/textures.cpp:90-104 | and keeps them in their order, each once |
| TextureEffects.EraseDecided | client/src/textures.cpp:90-104 | erasing counts as one change, and as none when nothing is erased |
| TextureEffects.BeginDecided | client/src/textures.cpp:194-218 | a dispatch drops exactly the sources of disabled modules and leaves nothing to reload or save |
| TextureEffects.PathsDecided | client/src/textures.cpp:203-207 | the host is given exactly the paths of enabled sources, from the last to the first |
| TextureEffects.EventsDecided | client/src/textures.cpp:230-245 | there is an event for exactly each source of a module whose state or place it was not told, in order, saying what is the case |
| TextureEffects.TellDecided | client/src/textures.cpp:247-263 | the loop over the events ends at the first that finds the revision changed, and delivers all before it whose modules are neither stopping nor disabled |
| Sha1Spec.ChoiceIsCh | client/src/sha1.cpp:33-36 | the source's form of the choice function is Ch of section 4.1.1 of FIPS 180-4 |
| Sha1Spec.MajorityIsMaj | client/src/sha1.cpp:41-44 | the source's form of the majority function is Maj of section 4.1.1 of FIPS 180-4 |
| Sha1Spec.GapIsLeast | client/src/sha1.cpp:102-105 | the zero padding is the shortest that section 5.1.1 of FIPS 180-4 allows |
| Sha1.Hasher.HashBlock | client/src/sha1.cpp:7-63 | schedule and rounds in place compute the compression of section 6.1.2 of FIPS 180-4 |
| Sha1.Hasher.Update | client/src/sha1.cpp:65-81 | whole blocks are hashed and the rest is buffered, for any length fed |
| Sha1.Hasher.Finish | client/src/sha1.cpp:94-109 | below 2^61 bytes the digest is that of FIPS 180-4, the padding loop ends, and the block buffer is empty |
| Sha1.DigestOfPieces | client/src/sha1.cpp:65-112 | however a message is split, the digest is that of the whole |
| Sha1.DigestOf | client/src/sha1.cpp:88-92 | the one-shot digest is that of FIPS 180-4 |
| Sha1Vector.DigestOfAbc | client/src/sha1.cpp:7-112 | the digest of "abc" is that of appendix A of FIPS 180-2, computed from the definitions through padding, schedule and all eighty rounds |
| Scratch.PlaceIs | sdk/src/memory.cpp:26-37 | the block goes to the next aligned address, exactly when it fits, although the 64-bit rounding may wrap |
| Scratch.AskableMeans | sdk/src/memory.cpp:41-48 | a request is taken exactly when its alignment is at most 16 or a power of two, and its size with it and a header fits 64 bits |
| Scratch.FreshChunkFits | sdk/src/memory.cpp:57-74 | a chunk obtained for a request always has room for it |
| Scratch.Arena.Allocate | sdk/src/memory.cpp:26-37 | keeps all blocks aligned, behind their chunk's header, inside it, and pairwise disjoint |
| Scratch.Arena.Alloc | sdk/src/memory.cpp:41-75 | fails only for requests turned down, or without room and without memory; returns the next aligned address of the last chunk, or of a new one large enough; keeps the list and the blocks sound |
| Scratch.Arena.Reset | sdk/src/memory.cpp:77-93 | frees all chunks but the first, which is left empty as a one-chunk list |
| Scratch.Arena.ReleaseAll | sdk/src/memory.cpp:95-100 | frees every chunk and leaves an empty list |
| GuestMemory.PageRun | client/src/guest.cpp:11-15 | a run is not empty, stays in its page, and ends at the page's end unless the access does |
| GuestMapping.AccessDecided | client/src/guest.cpp:23-90 | an access reaches its bytes exactly when every run of it, from page to page, may be accessed, and then each byte is the one its own address maps to |
| GuestMapping.HostByte | client/src/guest.cpp:44-51 | in a swapped space the bytes of each word of four stand in reverse, in others each byte is where it says |
| GuestMapping.WordReadBackwards | client/src/guest.cpp:44-51 | a word read from a swapped space is the word in host memory backwards |
| GuestMemory.HostTells | client/src/guest.cpp:44-51 | with either codec, different bytes of one space, or of two that do not overlap, are held by different host bytes |
| GuestMemory.ReadsBackIff | client/src/guest.cpp:23-90 | what is read back is what was written exactly when bytes that share a place are equal |
| GuestMemory.WriteThenRead | client/src/guest.cpp:23-90 | after a successful write a read of the range succeeds, and returns the same bytes exactly when bytes that share a host byte are equal |
| GuestMemory.UnaliasedReadBack | client/src/guest.cpp:23-90 | for runs that do not alias it returns the same bytes, with either codec and any page split |
| GuestMemory.OtherPlacesUnchanged | client/src/guest.cpp:57-90 | a write changes no byte of any space but those kept where it writes |
| GuestAccess.Guest.Read | client/src/guest.cpp:23-55 | succeeds exactly when every run may be read, and returns what host memory holds there |
| GuestAccess.Guest.Write | client/src/guest.cpp:57-90 | stores the bytes run by run, all of them exactly on success, and invalidates the code of exactly those written |

## Left out

- Error texts, logging, JSON, files, processes, threads as system objects, and condition-variable wake-up order.
- Cryptography: datagrams open when they were sealed with that number, signatures prove, keys and identifiers are numbers.
- modloader_bytes.h is not in the source tree and is not part of this model; its readers and writers do what their names say, and the hexadecimal text of a digest is left out.
- Layouts: parsing of descriptions and profiles, and the table of profiles with its handles; the models start from records, fields and edits.
- Worker pool: `Submit` called on a worker runs the job at once and touches no shared state; it is not a transition.
- Lobby: connections and lobbies are numbers that are never reused instead of heap objects; byte framing, the handshake, sealing and the hello clock are inputs, so a queued message stands for its bytes, and whether it fits the send queue is an oracle.
- Lobby: what a client does after a refusal, and the destructor of the server.
- LobbyServerWaiting.ReplicasAgree: that a client which has read `Welcome` reads it off what has left the server is taken from TCP, and that new signing keys differ from all earlier ones from their generation.
- Wasm objects: `Wasm_Read_Metadata`, which only finds sections by name.
- ModulePlan.PrepareLink: no plan is promised when a dependency has no file beside its dependent and was not requested; whether it is known by then depends on the order of names.
- Dependency planning: the file system is a value that does not change, and reading a module file, its package and its runtime is one lookup in it.
- Packet sockets: `Read_Datagrams`, accepting, and the round-robin over sockets; guest code that runs in a delivery acts between the calls that are modelled.
- Textures: saving and loading preferences, what the renderer does with the paths, the limits of the state it answers, and a `Dispatch` inside a `Dispatch`, which returns at once.
- SHA-1: `Update_Field`, which feeds a length and a text.
- Guest memory: the null-pointer checks, and `Invalidate`, which walks the same runs without touching memory.
- GuestMemory.WriteThenRead: for a map that does not change between the two accesses.
