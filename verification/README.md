# OOCore, modelled and proved

OOCore is a COM-like system for calling objects across threads, processes, users and machines.
This project models the parts of it where a mistake is hardest to see: the protocol of nested
calls, the routing tree of processes, the tables that count remote references and register
running objects, the wire format, MD5, copy-on-write strings, GUID text, the message formatter
and the traversal of service dependencies.

`dafny verify dfyconfig.toml` checks everything. Each module models one component:

| file | component |
|---|---|
| `ThreadContext.dfy`, `CallProtocol.dfy`, `CallSteps.dfy` | nested calls: one thread's context as a class, all threads of all processes as a transition system, and what its steps do |
| `Channels.dfy`, `Routing.dfy` | channel ids as bit fields, and a message's way through root, user processes and clients |
| `CloseNotices.dfy` | the flood of notices after a connection closes |
| `ChannelIds.dfy` | allocation of channel ids |
| `Rfc1321.dfy`, `Rfc1321Suite.dfy`, `Md5Transform.dfy`, `Md5.dfy` | RFC 1321 as a specification, a message of its test suite, the unrolled transform, and the streaming context |
| `SharedStrings.dfy` | reference-counted string nodes behind handles |
| `RemoteRefs.dfy` | stubs, proxies and marshal counts |
| `RunningObjects.dfy`, `RunningObjectCalls.dfy`, `RunningObjectRuns.dfy` | running object tables chained to upstream tables, what each call does, and runs of many of them |
| `Cdr.dfy`, `Framing.dfy`, `CdrMessages.dfy` | aligned streams, frames with both writers and both readers, and typed messages |
| `Formatters.dfy`, `Grouping.dfy`, `Guids.dfy` | placeholders, thousands separators, GUID text |
| `Services.dfy` | collecting services and their dependencies |
| `Options.dfy` | a value that may be missing, for all of them |

The same shape recurs. What the code changes in place is a class, or a method with the code's
own loop, whose contract equates its new state with a function of the old one. What the code
is for is then proved about that function, over every input, every run or every order of
events. Where runs of several parties matter the steps are functions on a system state, and
the invariant is proved for every sequence of events.

Every locked method body is one atomic step. `OOBase` is not in the repository: its hash tables
are maps, its queues and multimaps sequences, its handle tables give any unused id, and its
`CDRStream` is the aligned byte buffer of `Cdr.dfy` with `MaxAlignment` 8, a two-byte mark for
the byte order, and strings written as a 32-bit length and their bytes.

## What the proofs found

Where the code does not do what its comments or its callers expect, the model keeps the code,
and a lemma says exactly when things go right.

- A stub leaks when a reference arrives for which a proxy is already alive: it was counted when
  marshalled and is never given back. `RemoteRefs.LeftoverStubs` says which stubs stay,
  `RemoteRefs.StubLeaks` gives a run.
- A proxy sends its release before it leaves its table, so that a reference can be unmarshalled
  to a proxy that is about to be deleted, or even to one of another object whose id has been
  given out again. `RemoteRefs.HandedOut`: the proxy is a lasting one for the right object
  exactly if the one in the table has not begun its release; `RemoteRefs.WrongProxy` gives a run.
- An entry keeps the cookie of its upstream entry after that has been revoked by others. When the
  entry has died and its id is registered again, the table upstream may give the new entry the
  same cookie, and the revocation of the dead one then takes it away. `RunningObjects.RegisteredUpstream`:
  the new upstream entry is there exactly if no dead entry of the id has kept its cookie;
  `RunningObjectRuns.EntryLost` gives a run.
- `GetObject` gives up its lock between finding a single-use entry and revoking it, so that two
  calls can be served the same one (`RunningObjectRuns.ServedTwice`). `RunningObjectRuns.ServedAgain`:
  an entry is served again exactly while its revocation is still to come.
- A `CDRMessage` marshalled after it has been read in part reads differently at the other end.
  `CdrMessages.CopyIsFaithful`: it reads alike exactly when reading stopped at a multiple of
  eight and the new stream has the same byte order.
- A comment says that a surplus argument of the formatter is appended (Formatting.cpp:1852), but the sentinel that marks
  filled placeholders matches the first of them, whose text it replaces
  (`Formatters.Surplus`, `Formatters.SurplusArgs`). On a copy, where filled placeholders have
  become prefix, it is appended: `Formatters.CopyFillsAlikeIff` says when the two agree.
- The GUID parser accepts more than GUIDs. `Guids.AcceptsIff` says exactly what, by the
  characters of the text: the last hyphen is hardly checked, because two tests are joined with
  "and" (`Guids.LastHyphenIsFree`); the last field may begin with white space or a sign
  (`Guids.LastFieldIsLoose`); a field may begin with "0x" (`Guids.PrefixIsAccepted`). What an
  accepted text means prints as that text in upper case exactly if it is canonical
  (`Guids.PrintParse`).
- The `memset` after a failed parse has its arguments swapped, so that bytes stay behind
  (`Guids.FailureKeepsBytes`). `Guids.RefusalLeaves` says which, by where the text goes wrong,
  and exactly when the result is the null GUID.
- `MD5Final` means to clear its context but clears only as many bytes as a pointer has
  (md5.c:258). `Md5.Context.Final` says what is left; by `Md5.NeverCleared` that is something
  for every message. Its comment promises a bit count with the most significant byte first
  (md5.c:218), but the code appends the low-order word first, as section 3.2 of RFC 1321 has it.
- The string constructor for literals ignores its length unless it is zero; the text ends at
  the first NUL (Types.cpp:275-291). `SharedStrings.LiteralLength`: the text has the length asked for
  exactly if that is zero or where the literal ends.

## Model

| member | source | states |
|---|---|---|
| ThreadContexts.LeaveUndoesEnter | src/OOCore/UserSession.cpp:757-812 | what `process_request` does to the per-thread map and the compartment before the call is undone exactly by what it does after it |
| ThreadContexts.EnterAgrees | src/OOCore/UserSession.cpp:757-775 | a map that agrees with a scan of the requests in progress still agrees with one request more |
| ThreadContexts.ScanFindsFrame | src/OOCore/UserSession.cpp:606-608 | the scan gives the source thread of the innermost request from that channel |
| ThreadContexts.ScanIsNone | src/OOCore/UserSession.cpp:606-608 | there is no entry exactly when no request from the channel is in progress |
| ThreadContexts.NestedHeaders | src/OOCore/UserSession.cpp:600-635 | a handler's calls back, within a callback and after it, are each addressed to the thread of the innermost request from that channel; a call elsewhere to none |
| ThreadContexts.ThreadContext.SendRequest | src/OOCore/UserSession.cpp:600-635 | a request is addressed to the thread that the scan names, and serving callbacks of any nesting while waiting leaves the context as it was |
| ThreadContexts.ThreadContext.ProcessRequest | src/OOCore/UserSession.cpp:737-813 | processing a request of any depth restores map and compartment, and all headers sent on the way are addressed as the scan says |
| CallProtocol.OneMessagePerThread | src/OOCore/UserSession.cpp:396-411 | at most one message can be underway to a thread |
| CallProtocol.ChainEnd | src/OOCore/UserSession.cpp:737-813 | following the calls from a request in progress upwards ends at the thread that runs; its caller waits for exactly that |
| CallProtocol.KeepsSend | src/OOCore/UserSession.cpp:600-635 | sending a request keeps the invariant over all threads, queues and stacks |
| CallProtocol.TakeOwnKeeps | src/OOCore/UserSession.cpp:506-556 | so does taking a message from the own queue while blocked, a response as well as a callback |
| CallProtocol.TakeDefaultKeeps | src/OOCore/UserSession.cpp:446-485 | so does pumping a request from the default queue |
| CallProtocol.FinishKeeps | src/OOCore/UserSession.cpp:650-665 | so does finishing a request and sending its response |
| CallProtocol.DeliverKeeps | src/OOCore/UserSession.cpp:288-431 | so does the read loop's choice of a queue |
| CallProtocol.RunKeeps | src/OOCore/UserSession.cpp:288-813 | the invariant holds after every run |
| CallProtocol.ResponseAnswersInnermost | src/OOCore/UserSession.cpp:506-556 | after every run, the response a waiting thread will accept answers its innermost outstanding request and comes from where that went, though responses carry no call id |
| CallProtocol.NothingLost | src/OOCore/UserSession.cpp:396-431 | after every run no message was dropped; a call not yet returned is found at exactly one place, once: as the one message underway or the one frame that serves it, and exactly one frame, its caller's, waits for it; of a returned call there is nothing left |
| CallProtocol.TablesAgree | src/OOCore/UserSession.cpp:757-813 | after every run the table of every thread agrees with a scan of the requests on its stack |
| CallProtocol.CallbackReachesCaller | src/OOCore/UserSession.cpp:606-612 | a thread that the table names for a channel is blocked in a call the running thread is serving, with nothing queued for it |
| CallSteps.SendPutsRequest | src/OOCore/UserSession.cpp:600-624 | after every run, sending puts one new request on the wire, with the sender's channel, compartment and thread, addressed to the thread that the scan of its stack names, or to none |
| CallSteps.DeliverPuts | src/OOCore/UserSession.cpp:364-431 | after every run, a message that names a thread goes into the queue of that thread, which waits; another request goes to the end of the default queue; a system request is answered in its place |
| CallSteps.TakeServes | src/OOCore/UserSession.cpp:737-775 | a request taken from either queue is served on top of the stack in the compartment it names, or answered at once when that is missing |
| CallSteps.TakeReturns | src/OOCore/UserSession.cpp:506-556 | a response ends the innermost wait and leaves the context alone |
| CallSteps.FinishAnswers | src/OOCore/UserSession.cpp:790-813 | a request that is done is answered to the thread of its caller, and the compartment is the one before |
| CallSteps.FiveSteps | src/OOCore/UserSession.cpp:288-813 | over every run, however events are ordered, each request accounts for at most five steps: calls cannot keep each other busy for ever |
| CallSteps.OnlyJamsRemain | src/OOCore/UserSession.cpp:446-485 | after every run, if no step can take a call on and one has not returned, some process has a request in its default queue and no thread that does not wait |
| Channels.PackInjective | src/OOServer/MessageConnection.cpp:293-313 | the four fields determine the id |
| Channels.Masks | src/OOServer/RootManager.cpp:48-54 | every mask in use cuts out a choice of fields |
| Channels.RootRoutes | src/OOServer/MessageConnection.cpp:293-329 | the root handler's bit tests decide by fields: own message, refusal, link or off the machine |
| Channels.UserRoutes | src/OOServer/MessageConnection.cpp:293-329 | so do the bit tests of a user process |
| Channels.RootCanRouteIs | src/OOServer/RootManager.cpp:405-412 | root lets through only what comes from or goes to the sandbox |
| Channels.UserCanRouteIs | src/OOServer/MessageConnection.cpp:480-484 | a user process lets through all but null ids and messages to oneself |
| Routing.RootSends | src/OOServer/MessageConnection.cpp:954-967 | the first link of a message from root, by fields |
| Routing.UserSends | src/OOServer/UserManager.cpp:276-276 | the first link of a message from a user process, by fields |
| Routing.ClientAccepts | src/OOCore/UserSession.cpp:357-359 | a client reads exactly what carries its own prefix |
| Routing.EveryWalk | src/OOServer/MessageConnection.cpp:277-380 | every message to an on-machine id walks along the tree, at most four hops, no handler twice, and where it stops it is delivered to the process named, refused, or answered with a close notice as the fate says |
| Routing.WalkStops | src/OOServer/MessageConnection.cpp:331-379 | there is always such an end |
| Routing.OffMachineStops | src/OOServer/MessageConnection.cpp:306-323 | an off-machine id leaves the tree at the first user process, and root has no link for it |
| Routing.OnlyThroughSandbox | src/OOServer/RootManager.cpp:405-412 | root forwards between two user subtrees only if one is the sandbox's |
| Routing.NoticeReturns | src/OOServer/MessageConnection.cpp:368-373 | the close notice sent in answer is itself delivered to the process that sent the message |
| CloseNotices.MessageHandler.ChannelClosed | src/OOServer/MessageConnection.cpp:543-595 | removes the channel, sends exactly the specified notices in order, and wakes waiting threads if it was there |
| CloseNotices.MessageHandler.ProcessChannelClose | src/OOServer/MessageConnection.cpp:852-869 | does the same for a notice from elsewhere and drops the channel from every thread context |
| CloseNotices.NoticesAre | src/OOServer/MessageConnection.cpp:569-576 | a link is told exactly if it is upstream or `can_route` allows it, is not the closed one and not the one the news came on, and only once |
| CloseNotices.SecondReport | src/OOServer/MessageConnection.cpp:557-560 | reporting a closed connection again sends nothing |
| CloseNotices.NoticesIs | src/OOServer/MessageConnection.cpp:569-581 | the handlers' bit tests choose the neighbours that the rules of the tree choose |
| CloseNotices.EachToldOnce | src/OOServer/MessageConnection.cpp:543-595 | in whatever order notices arrive there are finitely many, nobody is told twice or against the rules, and at the end everybody the rules allow was told |
| ChannelIds.MessageHandler.SetChannel | src/OOServer/MessageConnection.cpp:429-445 | the shift and the mask are those of the child bits, and for a run of ones they make the handler ready to allocate |
| ChannelIds.OddPart | src/OOServer/MessageConnection.cpp:436-444 | a mask determines its shift and its odd part |
| ChannelIds.MessageHandler.SetRootChannel | src/OOServer/RootManager.cpp:53-53 | root's masks make its handler ready to allocate seven bits, clear of its own |
| ChannelIds.MessageHandler.SetUserChannel | src/OOServer/UserManager.cpp:276-276 | a user process's masks make its handler ready to allocate twelve bits, clear of its own |
| ChannelIds.MessageHandler.NextFree | src/OOServer/MessageConnection.cpp:463-468 | below the capacity check the loop ends, also across the wrap of the counter, with the next id after the last that is free, in the handler's prefix and with child bits set |
| ChannelIds.MessageHandler.RegisterChannel | src/OOServer/MessageConnection.cpp:447-478 | a given id is refused exactly if taken; otherwise a new one is made unless the table is full; the handler stays ready |
| ChannelIds.FreeSlot | src/OOServer/MessageConnection.cpp:458-461 | below the capacity check some slot is free |
| ChannelIds.IdOk | src/OOServer/MessageConnection.cpp:466-466 | an allocated id lies in the handler's prefix and has its slot as child bits and zero elsewhere |
| ChannelIds.RootMasks | src/OOServer/RootManager.cpp:53-53 | root's child mask is a run of ones, and its masks do not meet |
| ChannelIds.UserMasks | src/OOServer/UserManager.cpp:276-276 | so for a user process |
| Md5Transform.F1IsF | src/OOCore/md5.c:56-57 | the shortened F1 is RFC 1321's F |
| Md5Transform.F2IsG | src/OOCore/md5.c:58-58 | F1 with its arguments turned is G |
| Md5Transform.StepIsOperation | src/OOCore/md5.c:62-64 | one macro step is one operation of section 3.4 |
| Md5Transform.MD5Transform | src/OOCore/md5.c:71-151 | the 64 unrolled steps are the compression function of section 3.4 |
| Rfc1321Suite.AlphabetDigest | src/OOCore/md5.c:71-151 | the specification gives the digest of the alphabet that section A.5 lists, all 64 operations of it written out |
| Rfc1321.LengthIs | src/OOCore/md5.c:177-180 | the two words of the length are the number of bits modulo 2^64 |
| Md5.ByteReverse | src/OOCore/md5.c:45-53 | reverses each group of four bytes in place |
| Md5.LoadOfStore | src/OOCore/md5.c:42-53 | after reversal a host of either byte order loads the words that the bytes encode |
| Md5.Context.CountBits | src/OOCore/md5.c:177-180 | the two-word counter with carry counts bits modulo 2^64 |
| Md5.Context.Update | src/OOCore/md5.c:171-214 | an update appends its bytes to the data, whatever was buffered |
| Md5.Context.Final | src/OOCore/md5.c:220-259 | the digest of the data; of the context only as many bytes are cleared as a pointer has, and digest words, counter and last block stay |
| Md5.NeverCleared | src/OOCore/md5.c:258-258 | for no message is the context all zero afterwards |
| Md5.PaddedMessage | src/OOCore/md5.c:225-255 | one- and two-block padding and the counter complete the message as section 3.1 and 3.2 say |
| Md5.DigestOfChunks | src/OOCore/md5.c:157-259 | any sequence of updates gives the RFC 1321 digest of their concatenation, on hosts of either byte order |
| SharedStrings.StringNode.Grow | src/OOCore/Types.cpp:190-241 | a node with one reference makes room for more text, which moves from the node to the heap when it no longer fits; a shared node refuses |
| SharedStrings.MakeNode | src/OOCore/Types.cpp:256-267 | a node with the given text, count one, inline exactly when it fits |
| SharedStrings.CopiedKeeps | src/OOCore/Types.cpp:89-93 | copying a handle shares its node and gives it the same text; no other text changes |
| SharedStrings.ReleasedDeletes | src/OOCore/Types.cpp:95-99 | a node goes exactly when its last handle does |
| SharedStrings.ReleasedOk | src/OOCore/Types.cpp:300-311 | releasing a handle keeps every count equal to the number of handles and changes no other text |
| SharedStrings.Strings.Construct | src/OOCore/Types.cpp:243-273 | a new handle has the text given |
| SharedStrings.Strings.ConstructLiteral | src/OOCore/Types.cpp:275-291 | the text of a literal: nothing for length zero, and otherwise all up to the first NUL |
| SharedStrings.LiteralLength | src/OOCore/Types.cpp:275-291 | it has the length given exactly if that is zero or where the literal ends |
| SharedStrings.LiteralIsLonger | src/OOCore/Types.cpp:275-291 | a literal that comes out longer |
| SharedStrings.Strings.Assign | src/OOCore/Types.cpp:313-319 | after assignment the target has the source's text and nothing else has changed |
| SharedStrings.Strings.Append | src/OOCore/Types.cpp:338-421 | appending changes the target only, also when its node is shared |
| SharedStrings.Strings.Left | src/OOCore/Types.cpp:604-626 | the left part, which shares the node when it is the whole |
| SharedStrings.MidIs | src/OOCore/Types.cpp:604-626 | the part has the length asked for or what is left, and its characters are those from the start on |
| SharedStrings.Strings.TakeRight | src/OOCore/Types.cpp:628-642 | the right part, which shares the node when it is the whole |
| SharedStrings.RightIs | src/OOCore/Types.cpp:628-642 | the part has the length asked for or all there is, and the text ends with it |
| SharedStrings.Strings.Run | src/OOCore/Types.cpp:190-421 | over any run of operations the texts of all handles are those of plain string values, every count equals the handles on its node, and text is inline exactly when it fits |
| RemoteRefs.StubManager.MarshalInterface | src/OOCore/StdObjectManager.cpp:454-513 | finds or makes the object's stub and counts one more reference, as the step of the whole system does |
| RemoteRefs.StubManager.RemoteRelease | src/OOCore/WireStub.cpp:118-125 | takes one reference back and removes the stub with the last, as the step of the whole system does |
| RemoteRefs.StubManager.RemoveStub | src/OOCore/StdObjectManager.cpp:394-406 | removes the stub from both tables |
| RemoteRefs.StubManager.ReleaseMarshalData | src/OOCore/StdObjectManager.cpp:589-627 | takes back a reference that was not sent, as the step of the whole system does |
| RemoteRefs.ProxyManager.UnmarshalInterface | src/OOCore/StdObjectManager.cpp:516-575 | the proxy returned is the one in the table, a new one only if there was none, and the table changes as in an unmarshalling step of the whole system |
| RemoteRefs.ProxyManager.FinalRelease | src/OOCore/WireProxy.cpp:36-45 | the release sent and the table afterwards are those of the two steps of the whole system |
| RemoteRefs.NextKeeps | src/OOCore/WireStub.cpp:44-59 | each step of either end keeps the invariant, also between the release a proxy sends and its leaving the table |
| RemoteRefs.MarshalStep | src/OOCore/StdObjectManager.cpp:454-513 | marshalling puts one reference in flight and counts it at the object's stub, which is new if there was none |
| RemoteRefs.WithdrawStep | src/OOCore/StdObjectManager.cpp:589-627 | withdrawing takes the reference out of flight and gives it back to its stub, which goes from both tables with the last |
| RemoteRefs.ReleaseStep | src/OOCore/WireStub.cpp:118-125 | so does a release that is delivered |
| RemoteRefs.UnmarshalStep | src/OOCore/StdObjectManager.cpp:516-575 | unmarshalling takes the reference out of flight and leaves a proxy in the table, the old one if there was one |
| RemoteRefs.FinalReleaseSteps | src/OOCore/WireProxy.cpp:36-45 | a final release first sends one release and then takes the proxy from its table |
| RemoteRefs.Run | src/OOCore/StdObjectManager.cpp:394-627 | every run from empty tables ends in a state that keeps the invariant |
| RemoteRefs.AlwaysResolves | src/OOCore/StdObjectManager.cpp:454-627 | in every reachable state a live proxy, a reference in flight and a release in flight find the stub of their object, and its count covers all of them |
| RemoteRefs.AlwaysInverse | src/OOCore/StdObjectManager.cpp:454-513 | in every reachable state the object-to-id and id-to-stub tables are each other's inverse |
| RemoteRefs.HandedOut | src/OOCore/StdObjectManager.cpp:532-567 | in every reachable state the proxy a reference is unmarshalled to is for the reference's object and is not about to go, exactly if the one in the table has not begun its release |
| RemoteRefs.WrongProxy | src/OOCore/WireProxy.cpp:36-45 | a run that ends with a reference unmarshalled to a proxy of another object |
| RemoteRefs.LeftoverStubs | src/OOCore/StdObjectManager.cpp:532-571 | with nothing in flight and no proxy alive, the stubs left are exactly those of which a reference met an existing proxy |
| RemoteRefs.MergedForever | src/OOCore/StdObjectManager.cpp:532-571 | such a stub stays, whatever events follow |
| RemoteRefs.StubLeaks | src/OOCore/WireProxy.cpp:36-45 | a run that ends with a stub nobody can release |
| RunningObjects.Rot.RegisterObject | src/OOCore/RunningObjectTable.cpp:82-157 | registers upstream first, rolls back when the local part fails, revokes dead entries: the state of the whole chain is that of the specification |
| RunningObjects.Rot.EnterObject | src/OOServer/UserROT.cpp:78-119 | the locked part of a registration and its rollback |
| RunningObjects.Rot.GetObject | src/OOServer/UserROT.cpp:127-192 | serves the first live entry the search allows, revokes dead and single-use ones, or asks upstream |
| RunningObjects.Rot.RevokeObject | src/OOServer/UserROT.cpp:194-217 | removes an entry from both indexes and upstream |
| RunningObjects.CheckIs | src/OOCore/RunningObjectTable.cpp:114-129 | a registration is refused exactly when some live entry conflicts; otherwise the revoke list has exactly the dead ones |
| RunningObjects.ScanIs | src/OOServer/UserROT.cpp:145-177 | a scan hits the first live entry the search allows, unless there is none |
| RunningObjects.RevokeKeeps | src/OOCore/RunningObjectTable.cpp:230-255 | revoking keeps every table of the chain consistent and leaves no upstream entry without its local one |
| RunningObjects.RollBack | src/OOCore/RunningObjectTable.cpp:141-147 | the rollback takes away the upstream entry of a failed registration |
| RunningObjects.RegisterKeeps | src/OOCore/RunningObjectTable.cpp:100-151 | so does registering; on success there is exactly one new entry, with what was asked for, and on failure the table is unchanged |
| RunningObjects.RegisteredUpstream | src/OOCore/RunningObjectTable.cpp:100-157 | a registration that succeeds has gone upstream exactly if there is an upstream table and the flags name a scope beyond the table's own; the next table then holds its entry exactly if no dead entry of the id has kept the same cookie; without an upstream table a process's own table refuses |
| RunningObjectCalls.RegisterRefuses | src/OOServer/UserROT.cpp:44-108 | a registration is refused exactly for a missing scope, a missing or refusing table upstream, a live entry that keeps it out, or a full table |
| RunningObjectCalls.RevokeIs | src/OOServer/UserROT.cpp:194-217 | an entry of another source stays, any other goes, and its upstream entry is revoked in this table's name |
| RunningObjects.GetKeeps | src/OOCore/RunningObjectTable.cpp:159-228 | so does getting; what is served is a live entry with the interface, gone afterwards if single-use |
| RunningObjectCalls.GetServes | src/OOServer/UserROT.cpp:127-192 | the first visible live entry is served if it has the interface, the visible dead ones before it go, a single-use one goes too, a missing interface changes nothing, and otherwise the next table answers |
| RunningObjectRuns.EveryState | src/OOServer/UserROT.cpp:44-227 | in every reachable state of any number of processes, also between the steps of a `GetObject`: both indexes hold the same set, each cookie once under its own oid; live entries of one oid differ in flags and at most one lacks `MultipleRegistration`; no upstream entry is orphaned |
| RunningObjectRuns.ServedAgain | src/OOServer/UserROT.cpp:127-192 | over every run, however calls come between each other, a single-use entry served before is served again exactly while its revocation is still to come |
| RunningObjectRuns.PoppedIsGone | src/OOServer/UserROT.cpp:180-182 | in every consistent state that revocation takes away the entry it is for, if it still stands |
| RunningObjectRuns.SingleUseOnce | src/OOCore/RunningObjectTable.cpp:200-206 | if nothing comes between the steps of any call, a single-use entry is returned by at most one `GetObject` of a whole run |
| RunningObjectRuns.ServedTwice | src/OOCore/RunningObjectTable.cpp:208-216 | a run in which two calls are served the same one |
| RunningObjectRuns.EntryLost | src/OOCore/RunningObjectTable.cpp:114-157 | a run in which a registration succeeds and the table upstream holds no entry for it |
| Cdr.GetPut | src/OOCore/CDRMessage.h:58-72 | a number is read back from its bytes, in either byte order |
| Cdr.PutGet | src/OOCore/CDRMessage.h:58-72 | bytes are written back from their number |
| Cdr.PutDigits | src/OOCore/CDRMessage.h:58-72 | each byte of a number is its digit to the base 256, counted from the end the byte order says |
| Framing.BuildHeader | src/OOCore/UserSession.cpp:667-707 | refuses exactly what is too big, and otherwise header and payload are a frame |
| Framing.SendMessage | src/OOServer/MessageConnection.cpp:1075-1125 | the same for a server, which leaves out the gap before an empty payload |
| Framing.ReadTurn | src/OOCore/UserSession.cpp:293-359 | one turn of the client's read loop: version, length, disconnect, corrupt and misdirected frames |
| Framing.RunReadLoop | src/OOCore/UserSession.cpp:288-362 | the client's loop over all its input |
| Framing.ParseMessage | src/OOServer/MessageConnection.cpp:277-361 | a server's own message, or the frame to pass on |
| Framing.OnRecv | src/OOServer/MessageConnection.cpp:149-206 | both parts of a server's read |
| Framing.MessageRead | src/OOCore/UserSession.cpp:334-350 | the body of a frame is read back at any multiple of eight, and its payload begins at one |
| Framing.ClientGetsAll | src/OOCore/UserSession.cpp:288-362 | a client gets exactly the messages for it out of any concatenation of frames, of either writer and byte order |
| Framing.ServerGetsAll | src/OOServer/MessageConnection.cpp:149-356 | a server gets its own messages, and everything else byte for byte |
| Framing.DisconnectIsRead | src/OOCore/UserSession.cpp:319-321 | the empty message ends the loop after all frames before it |
| Framing.MineIs | src/OOCore/UserSession.cpp:357-359 | a client's own ids are its channel and the compartments behind it |
| Framing.ClientTurnIs | src/OOCore/UserSession.cpp:293-359 | what a client makes of any bytes whatever: the frame it keeps or skips, or why it stops |
| Framing.ServerTurnIs | src/OOServer/MessageConnection.cpp:149-356 | what a server makes of any bytes whatever |
| CdrMessages.CDRMessage.WriteValue | src/OOCore/CDRMessage.h:207-258 | writes the type and the value of its type |
| CdrMessages.CDRMessage.ReadAny | src/OOCore/CDRMessage.h:149-205 | reads a value of the type found, or throws |
| CdrMessages.CDRMessage.ReadBytes | src/OOCore/CDRMessage.h:129-138 | reads bytes, refusing more than there is room for |
| CdrMessages.CDRMessage.MarshalInterface | src/OOCore/CDRMessage.h:93-101 | writes the unread bytes as a count and data |
| CdrMessages.CDRMessage.UnmarshalInterface | src/OOCore/Channel.cpp:294-306 | makes a message of them |
| CdrMessages.RoundTrip | src/OOCore/CDRMessage.h:129-275 | any sequence of writes on any stream is read back by the matching reads up to the end, unchanged exactly when no string has a NUL |
| CdrMessages.WireIs | src/OOCore/CDRMessage.h:207-258 | the bytes of every value at the start of a message: the number of its type, padding, and the value, negative ones in two's complement |
| CdrMessages.BytesNeedRoom | src/OOCore/CDRMessage.h:129-138 | bytes are read back exactly if the caller has room for them |
| CdrMessages.UpToNulEnds | src/OOCore/CDRMessage.h:149-189 | a string is read up to its first NUL |
| CdrMessages.RebasedAll | src/OOCore/CDRMessage.h:129-275 | any reads, of any bytes, give the same on the stream cut at a multiple of eight |
| CdrMessages.MarshalBack | src/OOCore/Channel.cpp:294-306 | a message marshalled into any other comes back with its unread bytes |
| CdrMessages.CopyIsFaithful | src/OOCore/CDRMessage.h:93-101 | the copy reads like the original exactly when reading had stopped at a multiple of eight and the byte order is the same |
| CdrMessages.MisalignedCopy | src/OOCore/CDRMessage.h:93-101 | a 64-bit value that is lost otherwise |
| CdrMessages.SwappedCopy | src/OOCore/Channel.cpp:298-300 | a 16-bit value that changes in the other byte order |
| Formatters.Align | src/OOCore/Formatting.cpp:1749-1763 | pads to the width on the side the sign says |
| Formatters.DigitsAre | src/OOCore/Formatting.cpp:1864-1892 | an index is shown by the decimal digits of its number |
| Formatters.Formatter.Copy | src/OOCore/Formatting.cpp:1776-1805 | the copy takes leading filled placeholders into the prefix |
| Formatters.Formatter.GetArg | src/OOCore/Formatting.cpp:1814-1833 | the lowest index left and the format of its leftmost placeholder |
| Formatters.Formatter.SetArg | src/OOCore/Formatting.cpp:1835-1862 | fills the leftmost placeholder with that index, or appends |
| Formatters.Formatter.ToText | src/OOCore/Formatting.cpp:1864-1892 | the text as it stands |
| Formatters.FillsInOrder | src/OOCore/Formatting.cpp:1814-1862 | arguments fill placeholders in stable order of index and position |
| Formatters.AllFilled | src/OOCore/Formatting.cpp:1864-1892 | with as many arguments as placeholders the text is the prefix and each aligned argument with its suffix in text order |
| Formatters.CopyCasts | src/OOCore/Formatting.cpp:1776-1805 | a copy reads the same |
| Formatters.CopyThenFill | src/OOCore/Formatting.cpp:1776-1805 | filling a copy is as good as filling the original while something is unfilled |
| Formatters.CopyFillsAlikeIff | src/OOCore/Formatting.cpp:1852-1860 | that holds for every argument exactly while something is unfilled or there are no placeholders |
| Formatters.Surplus | src/OOCore/Formatting.cpp:1840-1860 | a surplus argument replaces the first text, and is appended only when there is no placeholder |
| Formatters.SurplusArgs | src/OOCore/Formatting.cpp:1840-1860 | of any number of surplus arguments the last one shows, in the first placeholder |
| Grouping.Group | src/OOCore/Formatting.cpp:577-601 | the loop ends, and gives the groups joined by the separator and the rest of the number |
| Grouping.GroupsAre | src/OOCore/Formatting.cpp:302-323 | the groups are the digits; from the right they have the sizes of the list, the last of which repeats, until `CHAR_MAX`, a negative size, or too few digits |
| Grouping.GroupSizes | src/OOCore/Formatting.cpp:577-601 | counted from the right, the groups have the sizes at their places in the list, the last of which stands for all that follow; the first group is what is left |
| Grouping.Restores | src/OOCore/Formatting.cpp:302-323 | taking the separators out restores the number |
| Guids.FromString | src/OOCore/Types.cpp:674-735 | the result is that of the fields as read by `strtoul`, and is determined by the characters of the text alone, failures and what they leave included |
| Guids.ParseIs | src/OOCore/Types.cpp:674-721 | for every text, and an `unsigned long` of 32 or 64 bits, parsing gives what the characters of its fields say |
| Guids.AcceptsIff | src/OOCore/Types.cpp:674-721 | a text is accepted exactly if each field is hexadecimal, with or without 0x, the last one also after spaces and a sign, and the separators tested are there |
| Guids.PrintIsCanonical | src/OOCore/Types.cpp:655-670 | the printed form is canonical and means the GUID |
| Guids.ParsePrint | src/OOCore/Types.cpp:674-721 | parsing the printed form of any GUID gives it back |
| Guids.PrintParse | src/OOCore/Types.cpp:655-721 | what an accepted text means prints as the text in upper case exactly if the text is canonical |
| Guids.LastHyphenIsFree | src/OOCore/Types.cpp:703-704 | with another character for the last hyphen a canonical text is accepted exactly if that is no hexadecimal digit, and then means the same |
| Guids.LastFieldIsLoose | src/OOCore/Types.cpp:703-718 | the first digit of the last field may be white space or a sign instead, and nothing else |
| Guids.PrefixIsAccepted | src/OOCore/Types.cpp:685-690 | a field that begins with 0x is accepted and means its other digits |
| Guids.FailureKeepsBytes | src/OOCore/Types.cpp:724-735 | a canonical text without its brace leaves its last bytes in the result |
| Guids.RefusalLeaves | src/OOCore/Types.cpp:724-735 | what each refused text leaves, and that it is the null GUID exactly if the bytes read up to the mistake, and those not reached, are zero |
| Services.ServiceQueues.GetServiceDependencies | src/OOServer/RootServices.cpp:53-97 | ends on every graph; what it queues is reachable, paired with its key, queued once and closed under dependencies, and it fails exactly over something reachable that is bad |
| Services.ServiceQueues.EnumServices | src/OOServer/RootServices.cpp:99-129 | succeeds exactly if everything needed is good, and then the queue is exactly what is needed, each name once |
| Services.ReachesIff | src/OOServer/RootServices.cpp:69-94 | a service reaches itself and what the services in its entry reach, and no more |
| Services.ClosedIsNeeded | src/OOServer/RootServices.cpp:73-94 | a closed queue with all roots holds everything reachable |

## Left out

- Sockets, pipes, the proactor, process spawning, security descriptors, the registry database, dialogs, the COM bridge and command lines: input, output and foreign calls.
- Failed memory allocation, everywhere.
- Asynchronous requests, channel closes and the death of threads in the call protocol: untagged responses are not matched then. Compartment switches within a process may happen at any time (`SwitchCompartment`), which covers more than the code does.
- `MessageHandler` has its own copy of the call protocol (MessageConnection.cpp:769-850), which differs in names only and is not modelled twice.
- RemoteRefs.ProxyManager.UnmarshalInterface: both looks at the table are one step. If another thread inserts a proxy between them, the code gives its own up inside the lock (StdObjectManager.cpp:558-563), which takes the lock again; what comes of that is up to `OOBase`.
- RemoteRefs.HandedOut: what the holder of a proxy that is about to go does with it.
- `Stub::MarshalStub` (references passed on to a third party) and `Shutdown`: their counts need code outside the repository.
- SharedStrings.Strings.Append: appending a string to itself is excluded; when its text leaves the node the code reads freed memory. `AppendInPlace` says how the node grows otherwise.
- CloseNotices.EachToldOnce: the tree is fixed while notices travel, and off-machine channels have no place in it.
- Routing.EveryWalk: what becomes of off-machine ids behind `do_route_off`, and the id translation of `RemoteChannel` (UserNet.cpp).
- RunningObjects.Rot.RegisterObject: notifications to listeners, and the one object id that `LocalROT::GetObject` answers itself (RunningObjectTable.cpp:167-174). A table is seen upstream under one source id; calls from several compartments of one process, which have several, are not modelled.
- RunningObjects.Rot.GetObject: one call with nothing in between; `RunningObjectRuns` takes it apart where the code gives up its lock.
- RunningObjects.GetKeeps: as `GetObject`.
- RunningObjectRuns.EveryState: a registration or a revocation that goes through several tables is one step, although each table has a lock of its own.
- Framing.OnRecv: bytes arrive whole; a socket that ends inside a frame ends the loop.
- Framing.ParseMessage: what `handle_message` does with a message after it is parsed, and a failed send of a frame that is passed on.
- `Cdr`: a read past the end fails and gives 0, and reads no more; a stream without a valid byte-order mark fails.
- CdrMessages.RoundTrip: floating-point values are their bits; struct starts and ends write nothing.
- Formatters.Formatter.constructor: parsing the format string. The arguments' own formatting is a parameter.
- Grouping.Group: signs, decimal points and locale lookups around the loop.
- Guids.FromString: a text that ends after the fourth group is read past its end; here there is a NUL.
- Services.ServiceQueues.EnumServices: the order of the queue beyond its pairing with keys, and starting the services.
- `OOCore_string_t_find2`, `merge_braces`, custom number pictures, `OverlayKey::GetValue` and `UserSession::term`: what they compute follows no simpler rule than their code.
