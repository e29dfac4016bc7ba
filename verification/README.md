# Verified models of a systems repository

This project models, in Dafny, the parts of a collection of C programs where a mistake
would be hardest to see, and proves what those parts are for. `dafny verify dfyconfig.toml`
checks all of it.

- **File descriptors** (`FdBits`, `FdTable`, `FdDescriptors`, `FdRefs`, `FdCalls`). The kernel's
  descriptor tables: a two-level bitmap with a free hint, slots, and reference counts.
  The bitmap search is proved against a plain set of used descriptors. The references are
  a state machine in which threads interleave open, dup, dup2, close, fork and exit;
  `FdCalls` says what each call then does to the descriptors.
- **Reliable UDP** (`RudpProtocol`, `RudpSafety`, `RudpSeals`, `RudpVerdicts`, `RudpDamage`,
  `RudpEndpoints`). A stop-and-wait file transfer over a network that loses, repeats and
  reorders packets. The protocol is a state machine. The two ends are objects, each
  proved to keep its promise to the other as long as the packets it gets are the other's.
- **HTTP parser** (`HttpStep`, `HttpRun`, `HttpTidy`, `HttpSync`, `HttpInv`,
  `HttpExecute`, `HttpSplit`, `HttpNames`, `HttpWords`, `HttpValues`, `HttpLines`,
  `HttpFraming`, `HttpChunked`, `HttpMethods`, `HttpStart`, `HttpMessages`, `HttpSwitches`).
  `HttpStep` says what the parser does with one byte. `HttpRun` feeds bytes one at a
  time, each in a buffer of its own, and is the reference. `HttpExecute` is the loop over
  a buffer with its marks, its inner loops and its late counting, and is proved to agree
  with the reference, so that how the input was cut into buffers does not matter. The
  modules from `HttpNames` on prove what the reference means: which methods, names and
  words are recognised, where a message ends, and which callbacks a whole message makes.
- **Unveil** (`UnveilCover`, `UnveilLoss`, `UnveilAccess`, `UnveilCounts`, `UnveilRuns`).
  Per-process lists of unveiled directories, each entry knowing the nearest one above it;
  entries that lose their vnode; the decision on a path; and the counts that are kept
  across processes, over every run of the four operations.
- **Mounts and metrics** (`Mounts`, `MetricOrder`, `Metrics`). Unmounting a file system
  with everything nested in it, and a metric whose values are reused from one collection
  to the next.
- **Battleship** (`BattleGrid`, `BattleGame`). Drawing ships and shooting at them.
- **Route map and comp_t** (`RouteMap`, `CompT`). The best neighbour towards an address,
  and the 16-bit floating code of accounting times.

`Wrappers` holds the optional value they share, `Helpers` what they need of numbers and
sequences.

Code that only computes is modelled by functions; code that updates fields, buffers or
loop variables is modelled by classes and methods, each proved against such a function.

Results that differ from what the code suggests:

- A fork during an open can hand the child a free hint that lies above an unused
  descriptor, and the child is then handed a higher one
  (`FdRefs.ForkDuringOpenSkipsDescriptor`). `FdTable.CopyHintIff` gives the exact
  condition.
- A process that lost an unveiled directory to an unmount may be unable to unveil another
  one: the search for covers would start from no vnode (`UnveilRuns.LossThenAddPanics`).
  `UnveilCover.AddIsSafeIff` gives the exact condition.
- A path that ends in a directory with an entry only for names in it is refused, whatever
  the directories above it grant (`UnveilAccess.DirectoryRefusedBelowGrant`).
  `UnveilAccess.DirectoryDecidedAsTreeIff` gives the exact condition.
- An entry covered by one that lost its vnode can lead the match of a walk upwards astray
  (`UnveilAccess.StrayMatchDecides`). `UnveilAccess.TracksEveryWalkIff` gives the exact
  condition on the list; whole unmounts always meet it.
- A header whose name merely begins with Transfer-Encoding counts as one when the end of
  the message is determined (`HttpNames.MarkedUnrecognised`). `HttpNames.NameMarks` gives
  the exact condition.
- A Transfer-Encoding of `chunked,chunked` is not taken as chunked, although its last
  word is (`HttpValues.RepeatedCodingMissed`). `HttpValues.LastCommaCounts` gives the exact
  condition.
- A dup of a file that has too many references leaves the new descriptor in use without a
  file. `FdCalls.LeaksExactlyTooMany` says that nothing else does.
- The UDP transfer delivers in order for files of at most 65534 chunks and can end for
  files of at most 65535; both limits are exact.
- The route query takes address 0 for "nothing found"; an edge from it can lead to a
  wrong answer (`RouteMap.ZeroIsMistaken`). `RouteMap.RightExactlyWhenHarmless` gives the
  exact condition.
- Battleship allows fifteen ships, and shots at the tenth and later ones are misses, so a
  side with more than nine cannot be lost. `BattleGame.LostExactlyUpToNine` gives the
  exact limit.

## Model

| member | source | states |
|---|---|---|
| `FdBits.SetBit` | 1.acct-driver-obsd/src/kern_mod/kern_descrip.c:175 | the word with bit i set and every other bit as it was |
| `FdBits.ClearBit` | 1.acct-driver-obsd/src/kern_mod/kern_descrip.c:194 | the word with bit i clear and every other bit as it was |
| `FdBits.LeastClear` | 1.acct-driver-obsd/src/kern_mod/kern_descrip.c:133-134 | the position of the least clear bit of a word that is not all ones |
| `FdBits.HideBelow` | 1.acct-driver-obsd/src/kern_mod/kern_descrip.c:117-119 | a scan that starts inside a word sees no clear bit below its start |
| `FdDescriptors.FindNextZero` | 1.acct-driver-obsd/src/kern_mod/kern_descrip.c:106-135 | the least clear bit at or above `want` in as many words as NDLOSLOTS gives, or -1 exactly when there is none |
| `FdDescriptors.FindLastSet` | 1.acct-driver-obsd/src/kern_mod/kern_descrip.c:137-157 | the greatest used descriptor below `last`, 0 when there is none |
| `FdTable.LastBelow` | 1.acct-driver-obsd/src/kern_mod/kern_descrip.c:137-157 | find_last_set: a used descriptor below `last` that no other one exceeds, or 0 when there is none |
| `FdDescriptors.MarkUsed` | 1.acct-driver-obsd/src/kern_mod/kern_descrip.c:170-182 | the used set grows by one descriptor, and a high bit is set exactly when its low word is full |
| `FdDescriptors.MarkUnused` | 1.acct-driver-obsd/src/kern_mod/kern_descrip.c:184-203 | the used set shrinks by one descriptor, and a high bit is set exactly when its low word is full |
| `FdDescriptors.FdInuse` | 1.acct-driver-obsd/src/kern_mod/kern_descrip.c:159-168 | whether the descriptor is in the used set |
| `FdDescriptors.Probe` | 1.acct-driver-obsd/src/kern_mod/kern_descrip.c:892-907 | one round through the high and the low map: a descriptor, no block at all, or a block whose free descriptors lie below the start |
| `FdDescriptors.RetryMissesNothing` | 1.acct-driver-obsd/src/kern_mod/kern_descrip.c:899-907 | the restart with a raised `want` skips no unused descriptor |
| `FdDescriptors.Search` | 1.acct-driver-obsd/src/kern_mod/kern_descrip.c:886-907 | the two-level search with its restart, whatever the hint, finds the least unused descriptor at or above `want` and the hint, or none exactly when there is none; it leaves the hint alone only when the hint was wrong |
| `FdDescriptors.SearchMeaning` | 1.acct-driver-obsd/src/kern_mod/kern_descrip.c:886-925 | the answer of the search, read on the plain set of used descriptors |
| `FdTable.UseKeepsInv` | 1.acct-driver-obsd/src/kern_mod/kern_descrip.c:170-182 | fd_used keeps counter, greatest used descriptor and slots in agreement with the used set |
| `FdTable.UnuseKeepsInv` | 1.acct-driver-obsd/src/kern_mod/kern_descrip.c:184-203 | fd_unused keeps them too, and a right hint right |
| `FdTable.AllocKeepsInv` | 1.acct-driver-obsd/src/kern_mod/kern_descrip.c:909-918 | handing out a descriptor keeps them, whatever the hint, and keeps a right hint right |
| `FdTable.HintedIsLeast` | 1.acct-driver-obsd/src/kern_mod/kern_descrip.c:886-907 | while the hint is right, the least unused descriptor at or above it and `want` is the least at or above `want` |
| `FdTable.GrowKeepsInv` | 1.acct-driver-obsd/src/kern_mod/kern_descrip.c:927-1005 | growing the table keeps them |
| `FdTable.UnuseUndoesAlloc` | 1.acct-driver-obsd/src/kern_mod/kern_descrip.c:1030-1034 | a descriptor handed out and given back at once, as falloc does when there is no file, leaves all but the hint as it was |
| `FdTable.FillKeepsCore` | 1.acct-driver-obsd/src/kern_mod/kern_descrip.c:709-733 | putting a file in a reserved slot keeps them |
| `FdTable.CopyHolds` | 1.acct-driver-obsd/src/kern_mod/kern_descrip.c:1158-1182 | the child of a fork holds exactly the inherited files, each at its old descriptor; which descriptors are left out may differ for one file |
| `FdTable.CopyKeepsCore` | 1.acct-driver-obsd/src/kern_mod/kern_descrip.c:1110-1186 | the child's counter, greatest descriptor and slots agree with its used set |
| `FdTable.CopyHint` | 1.acct-driver-obsd/src/kern_mod/kern_descrip.c:1154-1182 | the child's free hint is the parent's, lowered to the first file left behind |
| `FdTable.CopyHintIff` | 1.acct-driver-obsd/src/kern_mod/kern_descrip.c:1154-1182 | for every parent: nothing below the child's free hint is unused exactly when every parent descriptor below the hint holds a file up to the first one left behind |
| `FdRefs.ForkDuringOpenSkipsDescriptor` | 1.acct-driver-obsd/src/kern_mod/kern_descrip.c:1017-1186 | a run of open, fork and open whose child has an unused descriptor below its hint and is handed a higher one |
| `FdDescriptors.Filedesc.constructor` | 1.acct-driver-obsd/src/kern_mod/kern_descrip.c:1072-1099 | an empty table of NDFILE slots that satisfies the whole invariant |
| `FdDescriptors.Filedesc.Child` | 1.acct-driver-obsd/src/kern_mod/kern_descrip.c:1134-1154 | the empty child: a table of the given size with the parent's hint that satisfies all but the hint's promise |
| `FdDescriptors.Filedesc.FdUsed` | 1.acct-driver-obsd/src/kern_mod/kern_descrip.c:170-182 | the table with one descriptor more in use; invariant kept |
| `FdDescriptors.Filedesc.FdUnused` | 1.acct-driver-obsd/src/kern_mod/kern_descrip.c:184-203 | the table with one descriptor fewer in use, whatever the hint; a right hint stays right |
| `FdDescriptors.Filedesc.FdInsert` | 1.acct-driver-obsd/src/kern_mod/kern_descrip.c:709-733 | the file in its reserved slot and nothing else changed, whatever the hint |
| `FdDescriptors.Filedesc.FdRemove` | 1.acct-driver-obsd/src/kern_mod/kern_descrip.c:735-751 | the slot emptied and the descriptor free again, whatever the hint |
| `FdDescriptors.Filedesc.FdAlloc` | 1.acct-driver-obsd/src/kern_mod/kern_descrip.c:875-925 | the least unused descriptor at or above `want` and the hint and below table size and limit, or none and which of EMFILE and ENOSPC; with a right hint it is the least at or above `want` |
| `FdDescriptors.Filedesc.FdExpand` | 1.acct-driver-obsd/src/kern_mod/kern_descrip.c:927-1005 | same contents in NDEXTENT slots or twice as many |
| `FdDescriptors.Filedesc.AllocGrow` | 1.acct-driver-obsd/src/kern_mod/kern_descrip.c:304-314 | allocation with growth ends, for every hint, with the descriptor that fdalloc promises of the grown table, or with EMFILE only when all it looks at below the limit are used |
| `FdDescriptors.Filedesc.CopySize` | 1.acct-driver-obsd/src/kern_mod/kern_descrip.c:1134-1147 | the child's size is NDFILE or NDEXTENT times a power of two and lies above the parent's greatest descriptor |
| `FdDescriptors.Filedesc.FdCopy` | 1.acct-driver-obsd/src/kern_mod/kern_descrip.c:1110-1186 | the child table equals the specification of the copy, and the parent is unchanged |
| `FdRefs.NeverPanics` | 1.acct-driver-obsd/src/kern_mod/kern_descrip.c:184-1280 | no assertion can fail in a state that satisfies the invariant: fdinsert's, finishdup's, FRELE's, closef's, fd_unused's, and the panic of dup2 |
| `FdRefs.StepKeepsInv` | 1.acct-driver-obsd/src/kern_mod/kern_descrip.c:235-1297 | every step of every thread keeps: f_count equals slots holding the file plus references of calls in progress, and every file in a slot was inserted; what each step does to the descriptors is in FdCalls.StepFiles |
| `FdRefs.EveryRunIsSafe` | 1.acct-driver-obsd/src/kern_mod/kern_descrip.c:235-1297 | over every interleaving of open, dup, dup2, close, fork and exit, on tables with a right hint or not, the count is right and no assertion fails |
| `FdRefs.DestroyedExactlyWhenUnreferenced` | 1.acct-driver-obsd/src/kern_mod/kern_descrip.c:1234-1297 | a file is destroyed exactly when neither a slot nor a call refers to it, and by the call that gave up the last reference |
| `FdRefs.OnlyReleaseDestroys` | 1.acct-driver-obsd/src/kern_mod/kern_descrip.c:1275-1297 | no step but the release of a reference destroys a file |
| `FdRefs.StepKeepsHints` | 1.acct-driver-obsd/src/kern_mod/kern_descrip.c:875-925 | every step keeps the free-hint promise of every table that had it; only fork can hand out one without |
| `FdCalls.StepFiles` | 1.acct-driver-obsd/src/kern_mod/kern_descrip.c:285-1297 | the file that each descriptor of each table refers to changes as the call promises, and for no other descriptor: dup, dup2, close, open, fork and exit |
| `FdCalls.GotFile` | 1.acct-driver-obsd/src/kern_mod/kern_descrip.c:235-252 | between fd_getfile and its next step a thread has the file that the descriptor referred to, whatever other threads do to the descriptor |
| `FdCalls.Dup2Call` | 1.acct-driver-obsd/src/kern_mod/kern_descrip.c:354-402 | dup2 from its start to its end in any interleaving: the new descriptor refers to the file of the old one, what it referred to is closed, and a descriptor reserved by an open is left alone |
| `FdCalls.DupCall` | 1.acct-driver-obsd/src/kern_mod/kern_descrip.c:292-321 | dup likewise: a descriptor that was not in use refers to the same file |
| `FdCalls.OpenCall` | 1.acct-driver-obsd/src/kern_mod/kern_descrip.c:1011-1067 | open likewise: its descriptor stays empty until the file is put there |
| `FdCalls.LeaksExactlyTooMany` | 1.acct-driver-obsd/src/kern_mod/kern_descrip.c:655-706 | a step leaves a descriptor in use without a file or an open in progress if and only if it is a dup of a file with too many references |
| `FdCalls.EveryRunLeaksNone` | 1.acct-driver-obsd/src/kern_mod/kern_descrip.c:285-1297 | in every run without such a dup all descriptors in use are accounted for |
| `RudpProtocol.Payload` | 2.0.ReliableUDP/RProcess.h:107-114 | byte k of message i is byte i*1464+k of the file, and 0 past its end |
| `RudpProtocol.NumChunks` | 2.0.ReliableUDP/RProcess.h:123-148 | the number of data packets of a file, one even for an empty file |
| `RudpSafety.ProcessKeeps` | 2.0.ReliableUDP/RProcess.h:43-205 | every request the server handles leaves packet k of its queue carrying chunk k-1, the end mark right after the last chunk |
| `RudpSafety.NextPacket` | 2.0.ReliableUDP/RClient.c:223-250 | the only packet with the number the client waits for is the next one in order |
| `RudpSafety.ReceiveKeeps` | 2.0.ReliableUDP/RClient.c:207-271 | every packet that arrives, late or twice or out of order, leaves what the client accepted a prefix of the server's packets |
| `RudpSafety.StopKeeps` | 2.0.ReliableUDP/RClient.c:223-230 | the packet that makes the client stop exists only after it accepted the whole file |
| `RudpSafety.StepKeepsInv` | 2.0.ReliableUDP/RProcess.h:74-177 | every send, loss, duplicate, reordering and receipt keeps the invariant, counters included |
| `RudpSafety.EveryRunKeepsInv` | 2.0.ReliableUDP/RProcess.h:74-177 | so does every run, for files of up to 65534 chunks |
| `RudpSafety.WrittenIsFile` | 2.0.ReliableUDP/RClient.c:264-267 | k accepted packets, written out, are k whole buffers that agree with the file as far as it goes |
| `RudpSafety.StoppedMeansDelivered` | 2.0.ReliableUDP/RClient.c:223-230 | whenever the client stops, what it wrote begins with the whole file |
| `RudpSafety.LateCopyAccepted` | 2.0.ReliableUDP/RQueue.h:35-52 | with one chunk more, a late copy of the first packet is accepted again |
| `RudpSafety.InOrderExactlyUpToLimit` | 2.0.ReliableUDP/RQueue.h:35-52 | delivery in order holds in every run if and only if the file has at most 65534 chunks |
| `RudpSafety.NeverEnds` | 2.0.ReliableUDP/RProcess.h:118-151 | for a file too large for the 16-bit numbers no run ever ends |
| `RudpSafety.EndsExactlyUpToLimit` | 2.0.ReliableUDP/RProcess.h:118-177 | some run ends if and only if the file has at most 65535 chunks |
| `RudpSeals.ProcessSeals` | 2.0.ReliableUDP/RProcess.h:56-197 | whatever the request, every packet of the server carries a right checksum exactly if the session uses them, no packet sent changes, and the first answered request decides whether it does |
| `RudpSeals.EveryRunSealed` | 2.0.ReliableUDP/RProcess.h:43-205 | in every run every packet on its way, both ways, is sealed as the client chose |
| `RudpSeals.ChecksumsPass` | 2.0.ReliableUDP/RClient.c:207-216 | no packet fails the client's check, and none but the request fails the server's if and only if the empty message has the checksum the server expects |
| `RudpVerdicts.FirstVerdict` | 2.0.ReliableUDP/RProcess.h:43-117 | before a session: exactly a sound GET with the first numbers for a file that is there is answered, with the first chunk; what is refused, and what is worse |
| `RudpVerdicts.LaterVerdict` | 2.0.ReliableUDP/RProcess.h:43-205 | in a session: exactly an acknowledgement with the right numbers makes a new packet; exactly NAKs and packets with other numbers have the last one sent again; when the session ends; all else is bad and changes nothing |
| `RudpVerdicts.SentAgain` | 2.0.ReliableUDP/RProcess.h:74-98 | a lost packet is made good: a NAK or an old acknowledgement brings the last packet onto the network once more and changes nothing that was sent |
| `RudpVerdicts.NothingAfterEnd` | 2.0.ReliableUDP/RHandleServ.h:199-253 | in every run the server sends nothing more once the confirmation of the end is out |
| `RudpDamage.ClientIgnores` | 2.0.ReliableUDP/RClient.c:207-271 | with checksums a damaged packet is not accepted, does not stop the client, and is answered with a NAK for the packet it waits for |
| `RudpDamage.BadChangesNothing` | 2.0.ReliableUDP/RProcess.h:43-205 | a request that is found bad leaves the server as it was |
| `RudpDamage.ServerIgnores` | 2.0.ReliableUDP/RProcess.h:56-67 | in a session with checksums a damaged request leaves the server as it was |
| `RudpDamage.NakRound` | 2.0.ReliableUDP/RProcess.h:74-98 | a damaged packet and its NAK leave both ends in step, with the same queue |
| `RudpDamage.AcceptedAfterDamage` | 2.0.ReliableUDP/RClient.c:207-271 | the good packet is then accepted as if the damaged one had never come |
| `RudpEndpoints.RState.ProcessRequest` | 2.0.ReliableUDP/RProcess.h:43-205 | for any packet of the client the server stays the one the file asks for, moves on by one packet only when the client has accepted all before, never changes a packet it sent, and has one to send when it replies; damaged and bad packets change nothing |
| `RudpEndpoints.ReceiveInOrder` | 2.0.ReliableUDP/RClient.c:207-271 | any packet of the server, whenever it comes, adds the file's next packet to the accepted ones or nothing, and the answer is one the server expects |
| `RudpEndpoints.ReceiveAllInOrder` | 2.0.ReliableUDP/RClient.c:190-276 | whatever packets of the server arrive, in any order, the client accepts the first ones of the file in order, and stops only with all of them if no confirmation of the end came early |
| `RudpEndpoints.EarlyConfirmationStops` | 2.0.ReliableUDP/RClient.c:223-230 | without that condition: a confirmation that arrives first stops the client with nothing |
| `RudpEndpoints.RunsAreTimely` | 2.0.ReliableUDP/RClient.c:190-276 | in every run of client and server the packets on their way meet those conditions |
| `RudpEndpoints.RClient.constructor` | 2.0.ReliableUDP/RClient.c:150-188 | a client that has accepted nothing and asks for its file is in order for every file |
| `RudpEndpoints.RClient.Round` | 2.0.ReliableUDP/RClient.c:207-271 | one round accepts the file's next packet or none, and when it stops on time the whole file is written; a damaged packet is answered with a NAK and changes nothing else |
| `RudpEndpoints.RClient.Run` | 2.0.ReliableUDP/RClient.c:190-276 | after the loop, on any packets of the server, the bytes written are the file as far as they go, and all of it when the loop ended on time |
| `UnveilCover.Lookup` | 1.acct-driver-obsd/resources/kern_unveil.c:318-340 | the first entry for a vnode, or -1 exactly when there is none |
| `UnveilCover.FindCoverIsNearest` | 1.acct-driver-obsd/resources/kern_unveil.c:246-315 | the walk up finds the nearest unveiled proper ancestor, and -1 exactly when there is none |
| `UnveilCover.InterposedOnlyBelowSameCover` | 1.acct-driver-obsd/resources/kern_unveil.c:385-415 | a new entry changes the cover only of entries that shared its own cover |
| `UnveilCover.NewEntryOwnCover` | 1.acct-driver-obsd/resources/kern_unveil.c:385-415 | an entry never covers itself |
| `UnveilCover.IncrementalEqualsRecomputed` | 1.acct-driver-obsd/resources/kern_unveil.c:385-415 | in every list that it gets through, zapped entries or not, re-checking only those entries leaves each cover leading to what a full search finds |
| `UnveilCover.AddIsSafeIff` | 1.acct-driver-obsd/resources/kern_unveil.c:394-414 | the re-check gets through if and only if no entry that lost its vnode has the new entry's cover |
| `UnveilCover.LostFirstEntryBlocksAdding` | 1.acct-driver-obsd/resources/kern_unveil.c:385-415 | a process whose only entry lost its vnode cannot add any other |
| `UnveilCover.CoverIsHigher` | 1.acct-driver-obsd/resources/kern_unveil.c:246-315 | what a search finds has its vnode and lies strictly nearer to the root |
| `UnveilLoss.ZapKeepsCovers` | 1.acct-driver-obsd/resources/kern_unveil.c:862-866 | an entry that loses its vnode leaves the covers of all others leading to what a search now finds |
| `UnveilLoss.UnmountKeepsCovers` | 1.acct-driver-obsd/src/kern_mod/vfs_syscalls.c:492-498 | so does the loss of every vnode of a file system, one after the other |
| `UnveilLoss.UnmountLeavesNoneHanging` | 1.acct-driver-obsd/src/kern_mod/vfs_syscalls.c:492-498 | after an unmount no entry that has its vnode is covered by one that has not |
| `UnveilLoss.AddLeavesNoneHanging` | 1.acct-driver-obsd/resources/kern_unveil.c:385-415 | nor after an addition |
| `UnveilAccess.JumpEqualsWalk` | 1.acct-driver-obsd/resources/kern_unveil.c:802-835 | jumping from entry to cover decides as looking at every directory on the way would |
| `UnveilAccess.Fallback` | 1.acct-driver-obsd/resources/kern_unveil.c:802-835 | the fallback loop ends within as many steps as there are entries, passes through zapped ones, and decides as the walk over all ancestors does |
| `UnveilAccess.FlagMatchMeans` | 1.acct-driver-obsd/resources/kern_unveil.c:543-591 | flags match exactly when every permission wanted is among them and there is one at all |
| `UnveilAccess.DecideMeans` | 1.acct-driver-obsd/resources/kern_unveil.c:802-835 | the walk up decides as the nearest directory that permits all that is wanted or was set by the user, and ENOENT exactly when there is none |
| `UnveilAccess.FinalMeans` | 1.acct-driver-obsd/resources/kern_unveil.c:690-842 | the same of the whole final check: own entry, name, or the walk |
| `UnveilAccess.NothingFromNothing` | 1.acct-driver-obsd/resources/kern_unveil.c:543-842 | a permission that no entry and no name has is granted on no path |
| `UnveilAccess.CheckFinal` | 1.acct-driver-obsd/resources/kern_unveil.c:690-842 | granted exactly when the entry or name that decides permits everything wanted, and refused by it exactly when it does not but was set by the user; which one decides is said on the list and the tree; AUNVEIL set exactly on a refusal |
| `UnveilAccess.MatchTracksWalk` | 1.acct-driver-obsd/resources/kern_unveil.c:653-688 | on every walk, up or down, the match leads to the nearest unveiled directory |
| `UnveilAccess.TracksEveryWalkIff` | 1.acct-driver-obsd/resources/kern_unveil.c:595-688 | it does so on all walks if and only if no entry is covered by a zapped one that leads to an unveiled directory other than the root |
| `UnveilAccess.NoneHangsSettled` | 1.acct-driver-obsd/resources/kern_unveil.c:595-688 | which is so in every list that unmounts and additions leave |
| `UnveilAccess.StrayMatchDecides` | 1.acct-driver-obsd/resources/kern_unveil.c:665-688 | a list with such an entry, and a way up on which a name is decided as if it were in a directory below |
| `UnveilAccess.LookupDecidesAsTree` | 1.acct-driver-obsd/resources/kern_unveil.c:690-842 | whatever path led to a directory, a name in it is decided as a plain walk up the tree decides it |
| `UnveilAccess.DirectoryDecidedAsTreeIff` | 1.acct-driver-obsd/resources/kern_unveil.c:708-739 | a path that ends in a directory is decided as the walk up the tree decides it if and only if the directory's own entry settles it or it has none |
| `UnveilAccess.DirectoryRefusedBelowGrant` | 1.acct-driver-obsd/resources/kern_unveil.c:708-739 | an unveiled directory, a name unveiled in one below it, and that one refused |
| `UnveilCounts.Kernel.LookupVnode` | 1.acct-driver-obsd/resources/kern_unveil.c:318-340 | the early exit on v_uvcount never hides an entry |
| `UnveilCounts.Kernel.Destroy` | 1.acct-driver-obsd/resources/kern_unveil.c:172-200 | the process keeps no entry, the counts drop to match, and the assertion on the name count holds |
| `UnveilCounts.Kernel.Copy` | 1.acct-driver-obsd/resources/kern_unveil.c:203-240 | the child has the parent's entries, and the counts rise to match |
| `UnveilCounts.Kernel.RemoveVnode` | 1.acct-driver-obsd/resources/kern_unveil.c:844-880 | no process names the vnode any more, its count is 0, and neither panic nor assertion is reached |
| `UnveilCounts.Kernel.FindCoverOf` | 1.acct-driver-obsd/resources/kern_unveil.c:246-315 | the loop finds the cover of the specification |
| `UnveilCounts.Kernel.AddVnode` | 1.acct-driver-obsd/resources/kern_unveil.c:385-415 | for every list, zapped entries included: it gets through exactly when that is safe, and then the list has the new entry, its covers re-checked and the counts in agreement |
| `UnveilCounts.AddMeans` | 1.acct-driver-obsd/resources/kern_unveil.c:417-541 | after an addition one directory, or one name in it, has the permissions given, and no other permission changed |
| `UnveilCounts.ParsePermissions` | 1.acct-driver-obsd/resources/kern_unveil.c:342-369 | a string is refused exactly when it has a letter other than r, w, x and c; else it stands for the permissions its letters name |
| `UnveilCounts.Kernel.Add` | 1.acct-driver-obsd/resources/kern_unveil.c:417-541 | for every list: which error and when; without one the entry or name has exactly the new permissions and every other entry and name its old ones, the counts stay right, and covers that were right stay right; a NULL search is reached exactly when a zapped entry shares the new cover |
| `UnveilCounts.ZapKeepsCounts` | 1.acct-driver-obsd/resources/kern_unveil.c:844-880 | an entry that loses its vnode takes exactly one from that vnode's count |
| `UnveilCounts.AppendKeepsCounts` | 1.acct-driver-obsd/resources/kern_unveil.c:385-415 | an entry that is appended adds exactly one |
| `UnveilRuns.StepKeepsOk` | 1.acct-driver-obsd/resources/kern_unveil.c:172-880 | add, copy, destroy and remove each keep: v_uvcount is the number of entries naming the vnode, at most one per process, and ps_uvncount the number of names |
| `UnveilRuns.OkIsAsserted` | 1.acct-driver-obsd/resources/kern_unveil.c:172-880 | then no assertion on the counts fails |
| `UnveilRuns.EveryRunConserves` | 1.acct-driver-obsd/resources/kern_unveil.c:172-880 | so it is in every run of the four operations over any processes, entries without a vnode included |
| `UnveilRuns.StepKeepsCovers` | 1.acct-driver-obsd/resources/kern_unveil.c:172-880 | each of the four operations keeps, for every process: every cover leads to what a fresh search finds |
| `UnveilRuns.EveryRunKeepsCovers` | 1.acct-driver-obsd/resources/kern_unveil.c:172-880 | so it is in every run over one tree, whatever vnodes are lost on the way |
| `UnveilRuns.LossThenAddPanics` | 1.acct-driver-obsd/resources/kern_unveil.c:385-880 | a run: one directory unveiled, lost to an unmount, and no further one can be added |
| `HttpTidy.FeedTidy` | 2.libevent-server/src/http-parser/http_parser.c:712-2123 | every byte in every state leaves at most one mark set, the one the next state calls for |
| `HttpSync.ByteInStep` | 2.libevent-server/src/http-parser/http_parser.c:687-710 | a byte read inside a buffer comes to the same parser and, with what is pending, the same callbacks as that byte in a buffer of its own |
| `HttpInv.FeedKeeps` | 2.libevent-server/src/http-parser/http_parser.c:719-2122 | every byte in every state keeps what the assertions of http_parser_execute need |
| `HttpInv.SaneIsAsserted` | 2.libevent-server/src/http-parser/http_parser.c:1949-1950 | that is enough for all of them, and no bit-field has wrapped |
| `HttpInv.EveryRunIsSane` | 2.libevent-server/src/http-parser/http_parser.c:641-2155 | whatever bytes arrive, no assertion fails |
| `HttpInv.InitIsSane` | 2.libevent-server/src/http-parser/http_parser.c:2224-2233 | a new parser satisfies it |
| `HttpInv.OtherMethodLonger` | 2.libevent-server/src/http-parser/http_parser.c:986-1014 | the method matcher never indexes past the end of a method's name |
| `HttpExecute.SkipName` | 2.libevent-server/src/http-parser/http_parser.c:1267-1274 | the inner loop over a name of no interest stays in step with single bytes |
| `HttpExecute.HeaderFieldLoop` | 2.libevent-server/src/http-parser/http_parser.c:1256-1391 | the loop over a header name, counting bytes only at its end, does what single bytes do |
| `HttpExecute.SkipValue` | 2.libevent-server/src/http-parser/http_parser.c:1511-1530 | the inner loop over a value skips a byte unseen only where the header is too long anyway |
| `HttpExecute.HeaderValueLoop` | 2.libevent-server/src/http-parser/http_parser.c:1482-1706 | the loop over a header value does what single bytes do |
| `HttpExecute.EndValue` | 2.libevent-server/src/http-parser/http_parser.c:1488-1501 | the end of a value, by CR, by LF or by the end of the buffer |
| `HttpExecute.BodyLoop` | 2.libevent-server/src/http-parser/http_parser.c:1944-1985 | as much of a body as the buffer holds, taken at once, is what single bytes give |
| `HttpExecute.BodyBytes` | 2.libevent-server/src/http-parser/http_parser.c:2078-2099 | k bytes of a body or chunk lower the remaining length by k and are all pending for the callback |
| `HttpExecute.Iterate` | 2.libevent-server/src/http-parser/http_parser.c:712-2123 | one round of the outer loop does what single bytes do |
| `HttpExecute.EndsReady` | 2.libevent-server/src/http-parser/http_parser.c:2135-2145 | at the end of a buffer at most one mark is set, and the last callbacks bring out all that is pending |
| `HttpExecute.ExecuteBuffer` | 2.libevent-server/src/http-parser/http_parser.c:641-2155 | a whole buffer comes to the parser, the merged callbacks and the stop of its bytes one at a time; it fails exactly when they do |
| `HttpSplit.PiecesAreWhole` | 2.libevent-server/src/http-parser/http_parser.c:641-2155 | single bytes, buffer by buffer, are single bytes of the whole input |
| `HttpSplit.AnyPartition` | 2.libevent-server/src/http-parser/http_parser.c:641-2155 | two ways to cut the same input come to the same parser and callbacks |
| `HttpSplit.HttpParser.constructor` | 2.libevent-server/src/http-parser/http_parser.c:2224-2233 | a parser that is ready for its first buffer |
| `HttpSplit.HttpParser.Execute` | 2.libevent-server/src/http-parser/http_parser.c:641-2155 | parser, error and callbacks after a call, for every buffer, the empty one included, are those of its bytes one at a time; what these mean for whole messages is in HttpMessages and HttpSwitches |
| `HttpSplit.HttpParser.Finish` | 2.libevent-server/src/http-parser/http_parser.c:665-684 | what the end of input does in each state |
| `HttpSplit.HttpParser.ExecuteAll` | 2.libevent-server/src/http-parser/http_parser.c:641-2155 | input in any partition into non-empty buffers: without error or upgrade it ends in the parser and merged callbacks of the whole; without upgrade some call reports an error exactly when the whole is in error |
| `HttpFraming.LengthIsValue` | 2.libevent-server/src/http-parser/http_parser.c:1436-1450 | a Content-Length or chunk size is taken if and only if all its digits but the last stay within the limit; then it is the number written and never the unset value |
| `HttpFraming.FitsBelow` | 2.libevent-server/src/http-parser/http_parser.c:1561-1568 | a number that passes the overflow test is below the unset value, and so are its beginnings |
| `HttpFraming.BodySoFar` | 2.libevent-server/src/http-parser/http_parser.c:1944-1985 | short of its end a body is handed over as it comes, across any calls |
| `HttpFraming.IdentityBody` | 2.libevent-server/src/http-parser/http_parser.c:1944-1994 | exactly the announced bytes are handed over, and the message is complete with the last one |
| `HttpFraming.ChunkBody` | 2.libevent-server/src/http-parser/http_parser.c:2078-2099 | exactly the announced bytes of a chunk are handed over |
| `HttpFraming.FramedByLength` | 2.libevent-server/src/http-parser/http_parser.c:1206-1994 | Content-Length in any case, digits, any other headers before and after it, empty line, body or none: the announced bytes are the body, the message is complete with the last of them and not before, and the connection goes on exactly as version and Connection say |
| `HttpNames.NameRecognised` | 2.libevent-server/src/http-parser/http_parser.c:1206-1373 | a header is taken for Connection, Content-Length, Transfer-Encoding or Upgrade if and only if its name, in any case, is one of the five words |
| `HttpNames.NameMarks` | 2.libevent-server/src/http-parser/http_parser.c:1337-1348 | a name changes nothing else, except that every name beginning with transfer-encoding marks the message as having a transfer coding |
| `HttpNames.MarkedUnrecognised` | 2.libevent-server/src/http-parser/http_parser.c:1337-1366 | one such name, that is not recognised and marks the message |
| `HttpValues.CodingIsLastWord` | 2.libevent-server/src/http-parser/http_parser.c:1408-1760 | for every value: a Transfer-Encoding marks the message as chunked exactly when its last comma-separated word is that, in any case, and the words before let it be looked at |
| `HttpValues.OptionsAreWords` | 2.libevent-server/src/http-parser/http_parser.c:1408-1760 | for every value: a Connection sets keep-alive, close and upgrade exactly when one of its comma-separated words is that option and is looked at |
| `HttpValues.OneWord` | 2.libevent-server/src/http-parser/http_parser.c:1408-1760 | a value without a comma says a word exactly when it is that word in any case, spaces after it or not |
| `HttpValues.LastCommaCounts` | 2.libevent-server/src/http-parser/http_parser.c:1572-1690 | the exact condition for the word after the last comma: it is the word, and the words before it let a word be looked for |
| `HttpValues.PlainSeparate` | 2.libevent-server/src/http-parser/http_parser.c:1572-1690 | they do after any words that are none of the known ones |
| `HttpValues.RepeatedCodingMissed` | 2.libevent-server/src/http-parser/http_parser.c:1572-1690 | a last word chunked that is not seen: after another chunked |
| `HttpLines.LineValue` | 2.libevent-server/src/http-parser/http_parser.c:1206-1740 | the value of a line sets the flags that its name and words call for and nothing else |
| `HttpLines.LineDecoded` | 2.libevent-server/src/http-parser/http_parser.c:1206-1740 | a line with any name but Content-Length hands over name and value, and sets exactly the flags that its words name |
| `HttpLines.LinesDecoded` | 2.libevent-server/src/http-parser/http_parser.c:1206-1740 | so do any number of them, in order, with the flags of all together |
| `HttpChunked.SizeRead` | 2.libevent-server/src/http-parser/http_parser.c:1996-2047 | the digits of a chunk's size, read without a callback, are its length |
| `HttpChunked.SizeLineRead` | 2.libevent-server/src/http-parser/http_parser.c:1996-2076 | the whole size line, extensions included: one notice, then the data, or the trailers if the size is 0 |
| `HttpChunked.ChunkDecoded` | 2.libevent-server/src/http-parser/http_parser.c:1996-2116 | a chunk, extensions or not, is handed over whole between its two notices, and the parser waits for the next one |
| `HttpChunked.ChunksDecoded` | 2.libevent-server/src/http-parser/http_parser.c:1996-2116 | any number of chunks: every chunk's data in order and nothing else |
| `HttpChunked.ChunkedMessage` | 2.libevent-server/src/http-parser/http_parser.c:1795-2116 | a whole chunked body, with extensions, last chunk and any trailers but Content-Length: the data in order, then the trailers, complete with its last byte and not before |
| `HttpChunked.ChunkedFromLines` | 2.libevent-server/src/http-parser/http_parser.c:1206-2116 | from the headers on: lines that make the message chunked, the end of the headers, every chunk's data, the trailers, and how the connection goes on |
| `HttpChunked.ChunkedByLine` | 2.libevent-server/src/http-parser/http_parser.c:1337-1690 | one Transfer-Encoding line that says so makes the message chunked, whatever the other lines |
| `HttpChunked.ChunkedOnlyByLine` | 2.libevent-server/src/http-parser/http_parser.c:1337-1690 | and no message is chunked without one |
| `HttpMethods.GuessSpells` | 2.libevent-server/src/http-parser/http_parser.c:971-1022 | the method the parser has in mind begins with the letters read |
| `HttpMethods.GuessKnows` | 2.libevent-server/src/http-parser/http_parser.c:971-1022 | once enough letters of a method are read, that is the one it has |
| `HttpMethods.WholeName` | 2.libevent-server/src/http-parser/http_parser.c:927-1022 | for every text: it is a method's name exactly when the parser, having read it, has that method with no letter left |
| `HttpStart.MethodDecoded` | 2.libevent-server/src/http-parser/http_parser.c:927-1022 | each of the methods, and the space after it |
| `HttpStart.RequestLineDecoded` | 2.libevent-server/src/http-parser/http_parser.c:927-1204 | a request line: its method and version are stored, its target is handed over whole |
| `HttpStart.StatusRead` | 2.libevent-server/src/http-parser/http_parser.c:850-893 | a status is taken exactly when it is at most 999, and is then the number written |
| `HttpStart.StatusLineDecoded` | 2.libevent-server/src/http-parser/http_parser.c:770-925 | a status line: its version and status are stored, its reason is handed over whole |
| `HttpMessages.ChunkedWhenSaid` | 2.libevent-server/src/http-parser/http_parser.c:1206-1690 | with Transfer-Encoding: chunked, in any case, among its lines a message is chunked |
| `HttpMessages.FramedRequest` | 2.libevent-server/src/http-parser/http_parser.c:927-1994 | a whole request with Content-Length: target, headers, exactly its body, its end, and whether another may follow |
| `HttpMessages.ChunkedRequest` | 2.libevent-server/src/http-parser/http_parser.c:927-2116 | a whole chunked request, likewise |
| `HttpMessages.BareRequest` | 2.libevent-server/src/http-parser/http_parser.c:927-1942 | a request with neither is complete with its head |
| `HttpMessages.CodedAfterLine` | 2.libevent-server/src/http-parser/http_parser.c:1896-1922 | with a Transfer-Encoding that does not end in chunked: a request is refused unless the parser is lenient, the body of a response is all that follows |
| `HttpMessages.FramedResponse` | 2.libevent-server/src/http-parser/http_parser.c:770-1994 | a whole response with Content-Length |
| `HttpMessages.ChunkedResponse` | 2.libevent-server/src/http-parser/http_parser.c:770-2116 | a whole chunked response |
| `HttpMessages.BareResponse` | 2.libevent-server/src/http-parser/http_parser.c:1924-2205 | a response with neither is complete with its head exactly for 1xx, 204 and 304, else its body is all that follows |
| `HttpMessages.ReadChunkedRequest` | 2.libevent-server/src/http-parser/http_parser.c:641-2155 | a new parser given a chunked request in any buffers makes the callbacks of that request |
| `HttpSwitches.ContradictionRefused` | 2.libevent-server/src/http-parser/http_parser.c:1806-1822 | a Transfer-Encoding together with a Content-Length is refused where the parser was not told to accept it |
| `HttpSwitches.AnswerDecides` | 2.libevent-server/src/http-parser/http_parser.c:1848-1895 | the answer of on_headers_complete: 1 makes the head all of the message, 2 also ends HTTP, others but 0 are errors |
| `HttpSwitches.SwitchStops` | 2.libevent-server/src/http-parser/http_parser.c:1826-1890 | a CONNECT, or an Upgrade that the Connection names, without a body: the parser stops right after the head |
| `HttpSwitches.BodyBeforeSwitch` | 2.libevent-server/src/http-parser/http_parser.c:1826-1994 | such an Upgrade with a body: the body is read first and the parser stops after it |
| `Mounts.MountTable.Insert` | 1.acct-driver-obsd/src/kern_mod/vfs_syscalls.c:286-291 | the new mount at the end of the list; every mount still comes after the one it is nested in |
| `Mounts.NextNested` | 1.acct-driver-obsd/src/kern_mod/vfs_syscalls.c:426-454 | whether a mount is nested in m shows in what the one pass collected before it |
| `Mounts.MountTable.Collect` | 1.acct-driver-obsd/src/kern_mod/vfs_syscalls.c:419-454 | the collected mounts are m and all nested in it, inner ones first, all busied; EBUSY exactly when unforced with nested mounts |
| `Mounts.RemovalInnerFirst` | 1.acct-driver-obsd/src/kern_mod/vfs_syscalls.c:460-466 | the order of removal takes each mount after everything nested in it |
| `Mounts.TakenIsLeaf` | 1.acct-driver-obsd/src/kern_mod/vfs_syscalls.c:456-466 | at its turn, nothing in the list is mounted on the mount that is removed |
| `Mounts.LeafLeaves` | 1.acct-driver-obsd/src/kern_mod/vfs_syscalls.c:505-511 | a mount without others on it may leave the list |
| `Mounts.OutsideOrdered` | 1.acct-driver-obsd/src/kern_mod/vfs_syscalls.c:412-474 | the list without m and all nested in it is still in order |
| `Mounts.MountTable.UnmountLeaf` | 1.acct-driver-obsd/src/kern_mod/vfs_syscalls.c:476-524 | the leaf is removed or the list unchanged; either way it is no longer busy |
| `Mounts.MountTable.Release` | 1.acct-driver-obsd/src/kern_mod/vfs_syscalls.c:468-473 | everything collected is let go |
| `Mounts.MountTable.Drain` | 1.acct-driver-obsd/src/kern_mod/vfs_syscalls.c:460-473 | the mounts removed are a beginning of the collected list, all of it without an error |
| `Mounts.MountTable.Unmount` | 1.acct-driver-obsd/src/kern_mod/vfs_syscalls.c:412-474 | without error exactly the mounts nested in m are gone; unforced with nested ones is EBUSY and changes nothing; every exit leaves nothing busy |
| `MetricOrder.CompareLabelVals` | 2.libevent-server/src/metrics.c:171-183 | the loop gives the comparison by the first difference |
| `MetricOrder.CompareOrder` | 2.libevent-server/src/metrics.c:137-183 | for the label values of one metric the comparison is a strict total order, and 0 means equal |
| `MetricOrder.StrCmpMeans` | 2.libevent-server/src/metrics.c:137-169 | strings are ordered as in a dictionary: by the first difference, or the shorter first |
| `MetricOrder.CompareMeans` | 2.libevent-server/src/metrics.c:171-183 | label values are ordered by the first label in which they differ, numbers by size and strings as in a dictionary |
| `Metrics.Metric.Find` | 2.libevent-server/src/metrics.c:488-489 | a value with these labels is found if there is one; otherwise the place that keeps the order |
| `Metrics.Metric.Update` | 2.libevent-server/src/metrics.c:451-518 | the tuple has its new value, every other updated one its old; the tuple is no longer stale |
| `Metrics.Metric.Collect` | 2.libevent-server/src/metrics.c:669-684 | every value is stale, on old_values, and otherwise unchanged |
| `Metrics.Metric.ClearOldValues` | 2.libevent-server/src/metrics.c:711-721 | the stale values are gone, the updated ones stay |
| `Metrics.Metric.Clear` | 2.libevent-server/src/metrics.c:235-249 | no value is left, on the tree or on old_values |
| `Metrics.Metric.UpdateAll` | 2.libevent-server/src/metrics.c:451-518 | after a sequence of updates each updated tuple has its last value |
| `Metrics.Metric.Cycle` | 2.libevent-server/src/metrics.c:669-721 | a collection leaves exactly the map from each updated tuple to its last value |
| `Metrics.Metric.Rebuild` | 2.libevent-server/src/metrics.c:235-249 | so does clearing and building anew |
| `Metrics.ReuseEqualsRebuild` | 2.libevent-server/src/metrics.c:451-518 | both leave the same values in the same order |
| `BattleGrid.DrawResultMeans` | 6.BattleShip/grid.c:212-233 | a line can be drawn exactly when all its cells are inside and free; else the first bad cell gives the error |
| `BattleGrid.DrawnCells` | 6.BattleShip/grid.c:212-233 | drawing changes the cells of the line and no others |
| `BattleGrid.DrawnCount` | 6.BattleShip/grid.c:212-233 | a ship of m cells puts m cells with its mark on the grid |
| `BattleGrid.Draw` | 6.BattleShip/grid.c:212-233 | the whole line is drawn, or after an error nothing |
| `BattleGrid.LineByLetter` | 6.BattleShip/grid.c:235-250 | N, S, E and W lead up, down, right and left of the column and row given |
| `BattleGrid.GridDraw` | 6.BattleShip/grid.c:235-250 | with column and row from 1 and a letter for the direction: a line is drawn exactly when its cells that way are inside and free; then they show the mark and nothing else changed; else nothing changed |
| `BattleGame.ShotKeeps` | 6.BattleShip/game.c:152-176 | a shot keeps each ship's counter equal to its cells left, and the total equal to the ships with cells left |
| `BattleGame.ResultMeans` | 6.BattleShip/game.c:152-176 | a result is a hit exactly when a ship lost a cell and has others, a sinking when it lost its last one, a repeat when the cell was shot at before, a miss when nothing was lost there |
| `BattleGame.BoardAfter` | 6.BattleShip/game.c:152-176 | after any game each cell shot at shows whether a ship was there, and every other one is as drawn |
| `BattleGame.HitWhereDrawn` | 6.BattleShip/game.c:76-176 | a shot at the column and row from which a ship was drawn meets that ship |
| `BattleGame.ShotUsesCell` | 6.BattleShip/game.c:152-176 | a shot at water or at one of the first nine ships uses up exactly one cell not shot at before; any other changes nothing; with at most nine ships these are the accepted ones |
| `BattleGame.LostIffNoShipCell` | 6.BattleShip/game.c:207-213 | the total is 0 exactly when no ship cell is left |
| `BattleGame.EveryGame` | 6.BattleShip/game.c:152-213 | through every game all this holds, and shots that count are bounded by the cells open at its start |
| `BattleGame.TenthStays` | 6.BattleShip/game.c:165-171 | no game takes anything from the tenth ship |
| `BattleGame.LostExactlyUpToNine` | 6.BattleShip/game.c:152-213 | a side can be lost in some game if and only if it has at most nine ships, of the fifteen allowed |
| `BattleGame.AllPlaced` | 6.BattleShip/game.c:76-105 | after a complete draw the counters agree with the grid |
| `BattleGame.Side.constructor` | 6.BattleShip/game.c:36-74 | an empty grid and counters at full strength |
| `BattleGame.Side.DrawAll` | 6.BattleShip/game.c:76-105 | when all ships are drawn the side satisfies the invariant, and ship s lies, in its size, where and in the direction that its line of the queue says |
| `BattleGame.Side.Shoot` | 6.BattleShip/game.c:152-176 | hit, sunk, missed, repeated, off the grid or illegal, each exactly by what the grid was and lost; grid and counters after it; invariant kept, shots that count counted |
| `BattleGame.Game.PlayCpu` | 6.BattleShip/game.c:178-191 | the CPU's turn, with its two early exits that change nothing |
| `BattleGame.Game.PlayPlayer` | 6.BattleShip/game.c:195-205 | the player's turn |
| `BattleGame.Game.Status` | 6.BattleShip/game.c:207-213 | a side has won exactly when the other has no ship cell; shots that count are at most size_x * size_y per grid |
| `RouteMap.LongestPrefix` | 2.1.LinkLayerSim/RMap.h:47-63 | the number of leading bits in common: they agree up to there and differ in the next |
| `RouteMap.CommonIsLongest` | 2.1.LinkLayerSim/RMap.h:47-63 | n is at most that number exactly when the first n bits agree |
| `RouteMap.AppendedHolds` | 2.1.LinkLayerSim/RMap.h:122-192 | every append keeps: the first entry for an edge holds the least distance ever appended for it, duplicates or not |
| `RouteMap.LeastIsLeast` | 2.1.LinkLayerSim/RMap.h:122-192 | that distance is one that was appended, and none appended is less |
| `RouteMap.RMap.Append` | 2.1.LinkLayerSim/RMap.h:122-192 | the lists after an append, in step with the edges ever appended |
| `RouteMap.ChosenIsBest` | 2.1.LinkLayerSim/RMap.h:65-94 | the running choice is the best of the entries seen |
| `RouteMap.RMap.Query` | 2.1.LinkLayerSim/RMap.h:65-94 | it answers 0 exactly when no edge to the target was ever appended, else a source of least distance and, of those, longest common prefix, if and only if no edge from address 0 leads there or another source is as good |
| `RouteMap.RightExactlyWhenHarmless` | 2.1.LinkLayerSim/RMap.h:65-94 | the same of the choice over any lists that an append can leave: both directions |
| `RouteMap.ChosenDespiteZero` | 2.1.LinkLayerSim/RMap.h:75-89 | an entry from address 0 makes the query forget what it found, and does no harm once an entry as good was met |
| `RouteMap.ZeroIsMistaken` | 2.1.LinkLayerSim/RMap.h:75-80 | two edges, the nearer one from address 0, for which the farther source is answered |
| `CompT.EncodeIsNearest` | 1.acct-driver-obsd/resources/kern_acct.c:266-286 | the mantissa fits 13 bits and the value is the tick count rounded half up, within half a unit of the last place |
| `CompT.ExactWhenSmall` | 1.acct-driver-obsd/resources/kern_acct.c:270 | tick counts up to 8191 are exact |
| `CompT.EncodeDecode` | 1.acct-driver-obsd/resources/kern_acct.c:260-286 | every code that can be given encodes its own value |
| `CompT.DecodeMonotone` | 1.acct-driver-obsd/resources/kern_acct.c:260-286 | a longer time never decodes to a shorter one |
| `CompT.EncodeMonotone` | 1.acct-driver-obsd/resources/kern_acct.c:260-286 | nor has it a smaller code, across a rounding carry as well |
| `CompT.FitsExactly` | 1.acct-driver-obsd/resources/kern_acct.c:277-286 | the exponent fits three bits, and the code sixteen, if and only if the tick count is below 8192*8^7 - 4*8^6 |
| `CompT.TicksAreWhole` | 1.acct-driver-obsd/resources/kern_acct.c:267-268 | the tick count is the number of whole 64ths of a second in the time |
| `CompT.CodeStandsFor` | 1.acct-driver-obsd/resources/kern_acct.c:260-286 | for every time below the limit the code, read back in nanoseconds, is that time to half a unit of its last place and one tick |
| `CompT.EncodeCompT` | 1.acct-driver-obsd/resources/kern_acct.c:260-286 | the loop computes that code, cut to 16 bits; for every time below the limit the code stands for its seconds and nanoseconds, to half a unit of its last place and the tick that is cut off |

## Left out

Assumptions:

- `sys/filedesc.h` is not part of this model. A word has 32 bits; there are 32 low words
  to a high one, and enough of them for the table; NDFILE and NDEXTENT are parameters with
  0 < NDFILE < NDEXTENT. NDLOSLOTS, which bounds a scan, is any function that gives at
  least the words the bits take; a scan that it would carry past the end of a map is
  taken to stop there.
- The UDP checksum is an arbitrary function of the message; encryption is off.
- The HTTP parser is the one built with HTTP_PARSER_STRICT; the header limit and the
  answers of on_headers_complete, as a function of the public fields, are parameters.
- The mask of user-set unveil flags is a parameter, and the directory tree is given by a
  parent function into which mount crossings are folded.
- AHZ is 64 and u_long has 64 bits in `CompT`.

Weaker than the code, or on fewer inputs:

- HttpSplit.HttpParser.Execute: callbacks that fail or pause the parser are not modelled,
  except the answer of on_headers_complete; after an error nothing is said about which
  callbacks were made or which error it was.
- HttpExecute.ExecuteBuffer: nread is unbounded, so buffers of 4 GiB and more, for which
  the 32-bit counter can wrap, are not covered.
- HttpLines.LineDecoded: a line with an empty value, a value folded over several lines, or
  an end without CR is left out.
- HttpLines.LinesDecoded: so are such lines here.
- HttpSplit.HttpParser.ExecuteAll: when another protocol takes over in the middle, nothing
  is said about the calls after it.
- UnveilRuns.EveryRunKeepsCovers: directories do not move while the run lasts.
- HttpChunked.ChunkedMessage: a Content-Length among the trailers is left out.
- HttpFraming.FramedByLength: a second Content-Length is left out.
- HttpStart.RequestLineDecoded: targets begin with `/` or `*` and consist of visible ASCII;
  absolute targets, CONNECT, HTTP/0.9 and ICE are left out.
- HttpStart.StatusLineDecoded: a status line without a reason is left out.
- HttpMessages.FramedRequest: so are such first lines here, and in the other whole messages.
- FdCalls.LeaksExactlyTooMany: the limit FDUP_MAX_COUNT itself is not modelled; a dup may
  meet it at any time.
- FdRefs.EveryRunIsSafe: the close-on-exec flags of descriptors are not modelled.
- RudpSafety.EndsExactlyUpToLimit: says that some run ends, not that a run must end; a
  lost acknowledgement can keep NAK and resend going round.
- RudpSafety.StoppedMeansDelivered: the client's options to misbehave on purpose at the
  end of a file, and its writing of a message as a format string, are not modelled.
- UnveilCounts.Kernel.Add: failures of the file system while a name is looked up are not
  modelled.
- Mounts.MountTable.Unmount: the flag MNT_DOOMED is not set, and what the file system
  itself does on unmount is an answer given from outside.
- MetricOrder.CompareOrder: labels of type double are left out; their comparison with a
  tolerance is not transitive.
- Metrics.Metric.Collect: the list of old values is empty at its start, as it is unless a
  collector gave up in the middle of the collection before.
- Metrics.Metric.Find: the tree is its in-order sequence; how it is balanced is not
  modelled.
- BattleGame.Side.Shoot: a move is a column and a row, or none; its text is not parsed.
- RouteMap.RMap.Append: the pointer from an entry to the element of its target is left
  out; the query does not read it.

Not modelled at all:

- Sockets, pipes, files, printing, sysctl collectors, threads and locks.
- The URL splitter http_parser_parse_url and the host parser.
- metric_push and metric_inc, which add only easy cases.
- Session restart of the UDP server.
- fcntl other than F_DUPFD, closefrom, close-on-exec, locks and ioctls of descriptors.
- The matchmaking server, sudoku, the shared-memory and lock-free exercises.
