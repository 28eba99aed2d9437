# Verified model of the camera pipeline's buffer-release protocol

A frame of the camera pipeline carries image and metadata buffers through a graph of nodes. Each buffer has an
ordered set of users; nodes mark buffers as released, and the frame has to notice which buffers nobody needs any
more, report them, hand them back exactly once, and know when it is finished. These modules model that protocol as
one system of steps and prove what it keeps over whole runs. Around it stand the parts that lean on it (dispatching,
flushing, the index of frames in flight, the init-frame queue) and some smaller algorithms of the same code base.

## How the model is built

A *specification* gives each operation of the frame as a function from state to state (`FrameModel`). A class with
the fields of the original object and its loops (`FrameControl`) is proved to compute exactly that function. The
invariants and the run-level theorems are then lemmas about the function:

- `Users` is the value of one buffer's users; `UsersManager` is the object behind it, with its sorted maps and the
  bit sets that are indexed by position in them, and the lemmas that connect the two; `LateUsers` is about a user that
  is added while it is in use.
- `FrameModel`, `WorldFacts`, `FrameInvariant`: items, node sets, collector, counters, and the invariant
  (`FrameOk`) that ties them together. `roster` says which nodes listed an item at configuration.
- `Conservation`, `MetaReport`, `FrameRuns`, `FrameConfiguration`, `FrameLife`: where Hal images are, what the
  application is told, runs of arbitrary steps (`RunOk`), the start of a frame from a plan, and its whole life.
- `Deliveries`, `DeliveryRuns`: where every other buffer goes, and what is kept back; `HandingOut`: who gets a buffer;
  `NodeNotices`, `FrameEnd`: what the listeners are told about nodes and about the end; `IndexedFrames`: what the index
  makes of that.
- `Dispatch` is the join over the frame's graph as a transition system over all interleavings; `FlushDrain` puts
  it together with the frame, `FlushRuns` bounds a whole flush, and `BaseNode` is the loop of one node's flush.
- `InFlightIndex`, `InitFrames`, `RequestQueue`, `NodeLifeCycle`: further state machines, each with the object that
  implements its steps.
- `FeatureStrategy` and `SelectionQueues`, `OpaqueHeap`, `CropMath`, `PackRounds`: independent algorithms.

One step of a state machine is what the original does under one lock. What other threads, the provider of buffers,
the application or the result processor do enters as a parameter: the outcome of a request, whether a weak
reference can still be promoted, which plugin agrees, what a node's callback returns.

## What is assumed

- The provider answers a request with a buffer of the stream it was asked for, or fails (`Honest`).
- The builder gives a frame one item per stream, items for all streams its nodes list, no stream as both App and
  Hal, and a graph over exactly the planned nodes (`SetupOk`); who is ahead of whom among a buffer's users comes from
  the edges of that graph (`FlushSetupOk`).
- A consumer that is added late, as the P1 node does for AIAWB (pipeline/hwnode/p1/P1NodeImp.cpp:5305-5313), may be any
  user, and the item an image (`Allowed`). A user that the buffer's graph knows already is refused. The step of the
  frame (`AddConsumer`) adds the consumer to the abstract users. `LateConsumerAnswers` says when the manager does the
  same: if no consumer with a larger id has been marked. The one caller adds the AIAWB nodes, whose ids from 0x100 up
  are larger than those of all other nodes (include/mtkcam3/pipeline/hwnode/NodeId.h:68-97).
- A category of a buffer's users has at most 32 users: the bits of the original are 32-bit words, those of the model
  sets of places.
- An apply is one step. A mark that a node makes on the buffer itself takes no lock of the frame, so in the original it
  can fall into the middle of an apply, between the check of the producers and the look at the node's own status.
  The model puts it before or after the apply.
- For the flush: the buffer provider is alive and every meta item has a buffer. A node that was queued marks all
  its streams before it dispatches; a flushed node does so by its own code. Nothing is assumed about which
  acquisitions fail or how the nodes' work interleaves.
- Frame numbers are given out once, and a frame calls its listeners after it was registered (`Proper`).
- The last step of a capture strategy, for a normal single capture, succeeds: as written here it always does
  (main/standalone_isp/FeatureSettingPolicy_ISP.cpp:750-778). What would follow from its failure is not in the model.
- Roots are the nodes without in-edges, and the root sender gives each of them the frame once. The counters of a frame
  are not changed by others while one call of onDispatchFrame is looked at on its own; the join has them interleave.
- The thread of the init-frame handler owns its handler: it was started with a shared pointer to it, which lives as long
  as the thread's function runs, so its weak reference never runs out.

## Where the code is weaker than one might expect

These are stated as lemmas about the code as it is.

- A pre-release takes the free Hal buffers out of the collector and drops them; conservation counts them as dropped.
- At the end of a frame the pending Hal images and Hal metas are returned, but a pending App meta is not
  (`MetasLeaveByTheEnd`).
- FRAME_RELEASED can be sent at a pre-release and again at destruction; the index is shown not to mind
  (`SecondReleaseIsHarmless`).
- The reported number of metas left counts streams that no apply has *seen* done. `LeftIsExactIff` says exactly when it
  is the number of streams that are not done, and `LeftOvercounts` gives the runs in which it is too large.
- `waitUntilNodeDrained` waits for metas and then for images; the two are not one wait (`NodeDrainedIsNotAtomic`), and
  `NodeDrainedAtOnceIff` says exactly when that makes no difference.
- `addUser` shifts the positions of users behind the new one but not their bits. This is harmless if and only if
  none of them has been marked (`LateUserIsFineExactly`). Otherwise haveAllUsersReleasedOrPreReleased, which the frame
  asks before it lets an item go, may say OK too early, with the new user still to come, or never (`LateUserExactIff`,
  `LateUserMisleads`, `LateUserCanBeOk`, with `OkWithoutTheLateUser` as the example), and haveAllUsersReleased may never
  say OK again (`LateUserCanBeReleased`).
- A flush of the RAW16 node waits for one signal, not for the flag: `FlushReturnsTo` says exactly what it returns to,
  and `ReturnedIsNotDrained` shows the bad case. Once an exit has been requested, whether or not the thread is still
  there, a flush that waits is never signalled, and only then (`SignalledUnlessExit`, with `ExitBeforeFlush`,
  `ExitDuringFlush` and `LeftBeforeFlush` as examples).
- The comparison of the RAW16 node's queue is an order exactly on numbers that lie in a window of less than 2^31
  (`WindowIffOrdered`).
- A provider's place is handed back in a signed 8-bit number (`IndexIsPlace`), and with 256 or more providers the
  lookup may go round for ever (`LookupEndsIff`).
- A failed init, config or reconfig of a node is told to its caller once (`FailureIsToldOnce`); `OkMeansDone` says what
  an OK is worth.
- In `setOpaqueInfoToHeap` the offset of the record wraps around when the heap is smaller than the record
  (`InfoFits`).
- The comment in InitFrameHandler.h says that the counter counts successful sends; the code counts every send, and so
  does the model.

## Model

| member | source | states |
|---|---|---|
| `FrameInvariant.FrameDoneIsSound` | pipeline/pipeline/PipelineBufferSetFrameControlImp.cpp:1628-1710 | when the in-flight count is zero no node lists anything, and every item whose users are listed nodes has left its map |
| `FrameInvariant.FrameDoneReleasesAll` | pipeline/pipeline/PipelineBufferSetFrameControlImp.cpp:1628-1799 | ... and then nothing is mapped and `mNonReleasedNum` is zero in all four maps |
| `FrameInvariant.RunUpdaterNodes` | pipeline/pipeline/PipelineBufferSetFrameControlImp.cpp:1628-1710 | the in-flight count is the number of nodes with a non-empty set after every updater run; a node is counted down at most once and the count never goes below zero |
| `FrameInvariant.VisitedListsOk` | pipeline/pipeline/PipelineBufferSetFrameControlImp.cpp:1712-1799 | shrinking the sets of one node keeps the agreement between lists and users: a listed user that is not done still lists its item, a mapped item is still listed by a node |
| `FrameInvariant.RefinedOk` | pipeline/pipeline/PipelineBufferSetFrameControlImp.cpp:1455-1470 | marking users and acquiring buffers, which only grow the users’ marks, keeps the frame invariant |
| `FrameInvariant.ApplyReleaseOk` | pipeline/pipeline/PipelineBufferSetFrameControlImp.cpp:1960-2095 | applyRelease keeps the frame invariant, the AIAWB branch and the early return after a pre-release included |
| `FrameInvariant.ApplyPreReleaseOk` | pipeline/pipeline/PipelineBufferSetFrameControlImp.cpp:2101-2260 | applyPreRelease keeps the frame invariant and sets the flag only when the count is zero |
| `FrameInvariant.AddConsumerOk` | pipeline/utils/streambuf/UsersManagerImp.cpp:638-654 | a consumer that is added late to the users of an image, whoever it is, keeps the frame invariant |
| `FrameRuns.NextRun` | pipeline/pipeline/PipelineBufferSetFrameControlImp.cpp:1455-2260 | every step (mark, get, release, pre-release, transfer, late consumer) keeps the full invariant of runs and, while the application listens, the once-only reporting |
| `FrameRuns.RunKeeps` | pipeline/pipeline/PipelineBufferSetFrameControlImp.cpp:1455-2260 | the invariant of runs holds after every step of every run |
| `FrameRuns.RunTellsOnce` | pipeline/pipeline/PipelineBufferSetFrameControlImp.h:339-416 | over a whole run the application is told of every produced meta buffer whose producers an apply has seen to be done exactly once, and of no other buffer |
| `FrameRuns.AnnouncedNotices` | pipeline/pipeline/PipelineBufferSetFrameControlImp.cpp:1664-1685 | a set that an updater run finds empty is announced once: notices stay one per node and message, whether the set was empty from the start or became so |
| `FrameConfiguration.ConfiguredOk` | pipeline/pipeline/PipelineBufferSetFrameControlImp.cpp:1091-1200 | a frame set up from any plan the builder may hand over starts in the invariant of runs, with nothing told yet |
| `FrameConfiguration.AddCounts` | pipeline/pipeline/PipelineBufferSetFrameControlImp.h:515-560 | adding an item keeps `mNonReleasedNum` right if and only if it does not replace a mapped entry |
| `FrameConfiguration.NothingAnnouncedYet` | pipeline/pipeline/PipelineBufferSetFrameControlImp.cpp:1091-1200 | right after configuration no output set counts as announced, empty ones included |
| `FrameLife.CountZeroTellsReleased` | pipeline/pipeline/PipelineBufferSetFrameControlImp.cpp:1091-1200 | for every run from configuration: once the in-flight count is zero, an item has been released if and only if some node of the plan reads or writes it |
| `FrameLife.EveryImageLeavesOnce` | pipeline/pipeline/PipelineBufferSetFrameControlImp.cpp:392-553 | a frame destroyed after any run, with a live processor throughout, has passed on every Hal image it owned at any time exactly once: to the processor, to the caller of the transfer, or dropped by a pre-release |
| `DeliveryRuns.AppImagesToldOnce` | pipeline/pipeline/PipelineBufferSetFrameControlImp.cpp:1901-1906 | over every run: the application is told of an App image at most once, only when the image has left its map, and of no other buffer; if it listens throughout it is told of each that has left |
| `DeliveryRuns.AppImagesInOneCall` | pipeline/pipeline/PipelineBufferSetFrameControlImp.cpp:1901-1906 | over every run: an apply that calls the application tells it in one call of exactly the App images that this apply sets free, and makes no such call if there are none; no other step does |
| `DeliveryRuns.HalMetasLeaveOnce` | pipeline/pipeline/PipelineBufferSetFrameControlImp.h:316-337 | over every run: a Hal meta buffer that has left its map is pending, was returned as a Hal meta, was lost without a processor or was dropped by a pre-release, exactly one of these and once; no other buffer is in any of them |
| `DeliveryRuns.AppMetasLeaveOnce` | pipeline/pipeline/PipelineBufferSetFrameControlImp.h:339-416 | the same for the App metas whose producers were seen to be done, in the lists of App metas |
| `DeliveryRuns.ReleaseKeepsWanted` | pipeline/pipeline/PipelineBufferSetFrameControlImp.cpp:1853-1953 | of the buffers of a kind that one applyRelease frees, exactly the wanted ones go to the pending set of that kind, and the others are exactly the list of that kind in the one call the processor gets |
| `DeliveryRuns.PendingIff` | pipeline/pipeline/PipelineBufferSetFrameControlImp.cpp:1807-1849 | over every run: a buffer is pending if and only if an applyRelease freed it while its kind was kept and its stream was a target, or there was no target, and no transfer came after |
| `DeliveryRuns.KeepingFollowsCalls` | pipeline/pipeline/PipelineBufferSetFrameControlImp.cpp:774-800 | over every run: whether a kind is kept, and with which target streams, is what the last call of configureInformationKeeping, and the last one that named streams for the kind, asked for |
| `Conservation.TryKeepExact` | pipeline/pipeline/PipelineBufferSetFrameControlImp.cpp:1807-1849 | not keeping changes nothing; keeping without targets empties the list; with targets exactly the entries of target streams become null; the pending set grows by exactly the wanted buffers, in order |
| `HandingOut.HandedOutIff` | pipeline/pipeline/PipelineBufferSetFrameControlImp.cpp:1358-1403 | a user is handed an item’s buffer if and only if the item is mapped, the user is one of its users, every user ahead has marked RELEASE, PRE_RELEASE or RELEASE_STILLUSE, some user has not released, and there is a buffer or the provider gives one |
| `HandingOut.EveryHandOut` | pipeline/pipeline/PipelineBufferSetFrameControlImp.cpp:1406-1449 | at every point of every run, for getImageBuffer and getMetaBuffer, whichever map the stream is in |
| `HandingOut.HandOutFollowsOrder` | pipeline/pipeline/PipelineBufferSetFrameControlImp.cpp:1386-1396 | so over every run no node of the plan gets a buffer before the nodes ahead of it that read or write it have let go |
| `HandingOut.MarksExactly` | pipeline/pipeline/PipelineBufferSetFrameControlImp.cpp:1231-1470 | markUserStatus marks exactly the item at which the search through the four maps ends, if that is still mapped and the caller is one of its users, with the mark of the status and no other; nothing else of the frame changes |
| `NodeNotices.ConfiguredSets` | pipeline/pipeline/PipelineBufferSetFrameControlImp.cpp:1120-1190 | after configuration each of the four sets of a node holds, in order, the items of the streams that the plan lists under that name; a node without streams is left out |
| `NodeNotices.NoticeMeansLetGo` | pipeline/pipeline/PipelineBufferSetFrameControlImp.cpp:1659-1685 | over every run: once the listeners were told that all output images, or all output metas, of a node are released, the node has let go of every such output that its plan names |
| `NodeNotices.NoticeAfterApply` | pipeline/pipeline/PipelineBufferSetFrameControlImp.cpp:1659-1685 | right after an apply of a node, made before the frame was done, that notice is there if and only if the node has let go of all these outputs |
| `FrameEnd.PreReleaseEndsIff` | pipeline/pipeline/PipelineBufferSetFrameControlImp.cpp:2116-2129 | a pre-release says FRAME_RELEASED, once, if and only if the in-flight count comes down to zero by it; the flag goes up then and stays up |
| `FrameEnd.ReleaseEndsIff` | pipeline/pipeline/PipelineBufferSetFrameControlImp.cpp:1975-2010 | a release that brings the count to zero raises the flag and never says FRAME_RELEASED |
| `FrameEnd.ReleaseFreesExactly` | pipeline/pipeline/PipelineBufferSetFrameControlImp.cpp:1960-2048 | one applyRelease takes out of the maps exactly the items that the node lists and all users have let go of, while the frame is not done, and, for the nodes 0x100 to 0x102, every Hal image that all its users have released |
| `FrameEnd.TransferForgetsExactly` | pipeline/pipeline/PipelineBufferSetFrameControlImp.cpp:811-836 | a transfer forgets the users of exactly the images it hands over, and changes no item otherwise |
| `FrameEnd.EndIsTold` | pipeline/pipeline/PipelineBufferSetFrameControlImp.cpp:500-551 | at the end of a frame after any run: the listeners hear FRAME_RELEASED once more; the application, if there, gets one more callback, which says that the frame has ended; the processor, if there, is told last and for the first time that it is destroyed |
| `FrameEnd.MetasLeaveByTheEnd` | pipeline/pipeline/PipelineBufferSetFrameControlImp.cpp:394-427 | at the end of a frame every Hal meta that had left its map has been returned, lost or dropped exactly once; a reported App meta has, if and only if it was not kept back to the end |
| `IndexedFrames.InFlightIff` | pipeline/pipeline/InFlightRequest.cpp:313-342 | a registered frame is in the frame list of the index if and only if it has not told its listeners FRAME_RELEASED |
| `IndexedFrames.DestroyedLeavesIndex` | pipeline/pipeline/InFlightRequest.cpp:313-342 | a frame that has ended after any run, and whose notices were delivered, is not in flight any more |
| `IndexedFrames.OwedUntilLetGo` | pipeline/pipeline/InFlightRequest.cpp:345-398 | until a frame has let go of the outputs that its plan names for a node, it stays in that list of the node |
| `IndexedFrames.OwedIff` | pipeline/pipeline/InFlightRequest.cpp:144-187 | a registered frame is in a node’s list for a message if and only if its plan gives the node outputs, of whatever sort, and it has not told its listeners this message of the node |
| `IndexedFrames.OwedAfterApply` | pipeline/pipeline/PipelineBufferSetFrameControlImp.cpp:1659-1685 | right after an apply of a node with outputs, made before the frame was done, the frame is in the node’s list for output metas, or images, if and only if the node has not let go of all of these |
| `IndexedFrames.DrainedNodeHasLetGo` | pipeline/pipeline/InFlightRequest.cpp:214-265 | when waitUntilNodeDrained returns, every frame registered for the node before the call has let go of all its output metas and images there |
| `FrameLife.AskingSettles` | pipeline/pipeline/PipelineBufferSetFrameControlImp.cpp:1260-1350 | the provider is asked only for an image that has no buffer and has not failed; the answer settles it, acquired exactly if there is a buffer, and otherwise failed with the asker marked RELEASE |
| `FrameLife.LateAskerIsReleased` | pipeline/pipeline/PipelineBufferSetFrameControlImp.cpp:1260-1350 | after a failed acquisition every user that asks while the item is mapped gets nothing and is marked RELEASE, without another request |
| `Conservation.ApplyReleaseConserves` | pipeline/pipeline/PipelineBufferSetFrameControlImp.cpp:1853-2095 | applyRelease moves Hal images between map, collector, pending set and results without losing or doubling one, null entries and the AIAWB branch included |
| `Conservation.ApplyPreReleaseConserves` | pipeline/pipeline/PipelineBufferSetFrameControlImp.cpp:2147-2177 | applyPreRelease drops exactly the Hal images it takes out of the collector |
| `Conservation.TransferConserves` | pipeline/pipeline/PipelineBufferSetFrameControlImp.cpp:811-836 | transferPendingReleaseBuffers hands out every pending image once |
| `Conservation.DestroyReturnsTheRest` | pipeline/pipeline/PipelineBufferSetFrameControlImp.cpp:392-553 | at destruction with a live processor every Hal image that is freed or still mapped has left exactly once |
| `MetaReport.ApplyReleaseReports` | pipeline/pipeline/PipelineBufferSetFrameControlImp.h:339-416 | applyRelease reports each produced meta buffer it sees done, and none twice |
| `MetaReport.ApplyPreReleaseReports` | pipeline/pipeline/PipelineBufferSetFrameControlImp.cpp:2101-2234 | so does applyPreRelease |
| `MetaReport.ApplyReleaseUpdateOk` | pipeline/pipeline/PipelineBufferSetFrameControlImp.cpp:1872-1927 | applyRelease makes a callback exactly if the frame was not pre-released and the application is alive, whatever was heard before; its per-node lists hold the same buffers as the flat lists, these hold once each the metas that this apply is the first to see done, and its "left" numbers count the streams not seen done |
| `MetaReport.ApplyPreReleaseUpdateOk` | pipeline/pipeline/PipelineBufferSetFrameControlImp.cpp:2147-2205 | the same for the callback of applyPreRelease, which is made whenever the application is alive |
| `FrameRuns.EveryUpdateOk` | pipeline/pipeline/PipelineBufferSetFrameControlImp.cpp:1872-2205 | over a whole run: every callback comes from one apply of the run and is in order for the items before and after that apply |
| `MetaReport.ProducersReleasedMetas` | pipeline/pipeline/PipelineBufferSetFrameControlImp.h:339-416 | seeing the producers of an item done adds its buffer to the flat list and to the list of the node together, once |
| `MetaReport.LeftIsExactIff` | pipeline/pipeline/PipelineBufferSetFrameControlImp.cpp:1739-1746 | "left" in the callback of applyRelease is the number of streams whose producers are not done if and only if every stream that is done when the call begins was seen to be before or is listed by the calling node; otherwise it is too large by the streams overlooked |
| `MetaReport.PreReleaseLeftIsExactIff` | pipeline/pipeline/PipelineBufferSetFrameControlImp.cpp:2101-2205 | the same for applyPreRelease |
| `FrameLife.LeftOvercounts` | pipeline/pipeline/PipelineBufferSetFrameControlImp.cpp:1739-1746 | a run from configuration that overcounts, in every frame in which a node alone writes an App meta that some other node has nothing to do with |
| `FrameLife.TwoWriters` | pipeline/pipeline/PipelineBufferSetFrameControlImp.cpp:1739-1746 | such a frame: two nodes that write one App meta each |
| `FrameLife.CountZeroToldOnce` | pipeline/pipeline/PipelineBufferSetFrameControlImp.h:339-416 | when the in-flight count has come down to zero and every report was heard, the application has been told of every meta buffer that a node of the plan writes, exactly once |
| `FrameLife.OwnedStays` | pipeline/pipeline/PipelineBufferSetFrameControlImp.cpp:1260-1350 | an image that a frame owned at any point of a run stays its own to the end |
| `WorldFacts.AllUsersReleasedOk` | pipeline/pipeline/PipelineBufferSetFrameControlImp.h:206-218 | letting an item go keeps its RELEASE bit, its map entry and `mNonReleasedNum` in agreement; where its buffer goes is for `AppImagesToldOnce`, `HalMetasLeaveOnce` and `EveryImageLeavesOnce` |
| `WorldFacts.ProducersReleasedOk` | pipeline/pipeline/PipelineBufferSetFrameControlImp.h:220-229 | seeing producers done keeps the outstanding numbers equal to the streams not seen done |
| `FrameControl.FrameControl.UpdateNodeStatus` | pipeline/pipeline/PipelineBufferSetFrameControlImp.cpp:1712-1799 | the in-place loop over a set equals one visit per item plus the closed form of what is kept |
| `FrameControl.FrameControl.RunNodeStatusUpdater` | pipeline/pipeline/PipelineBufferSetFrameControlImp.cpp:1628-1710 | the four sets in the order of the code, and the in-flight count |
| `FrameControl.FrameControl.TryKeepPendingReleaseBuffers` | pipeline/pipeline/PipelineBufferSetFrameControlImp.cpp:1807-1849 | the loop that nulls kept entries, or keeps the whole list when there are no targets, computes the function that `TryKeepExact` pins down |
| `FrameControl.FrameControl.HandleReturnResult` | pipeline/pipeline/PipelineBufferSetFrameControlImp.cpp:272-314 | null entries go from the meta lists but stay in the image list; nothing is sent without a processor |
| `FrameControl.FrameControl.HandleReleasedBuffers` | pipeline/pipeline/PipelineBufferSetFrameControlImp.cpp:1853-1953 | empties the collector, reports, keeps what is to be kept and returns the rest |
| `FrameControl.FrameControl.ApplyRelease` | pipeline/pipeline/PipelineBufferSetFrameControlImp.cpp:1960-2095 | the whole new state is that of the specification, of which `ReleaseFreesExactly`, `ReleaseKeepsWanted` and the run-level results say what it is |
| `FrameControl.FrameControl.ApplyPreRelease` | pipeline/pipeline/PipelineBufferSetFrameControlImp.cpp:2101-2260 | the whole new state is that of the specification, of which `PreReleaseEndsIff` and the run-level results say what it is |
| `FrameControl.FrameControl.FinishConfiguration` | pipeline/pipeline/PipelineBufferSetFrameControlImp.cpp:1091-1200 | node sets, in-flight count and produced counts are those of the specification; `ConfiguredSets` says what the sets are |
| `FrameControl.FrameControl.CountProduced` | pipeline/pipeline/PipelineBufferSetFrameControlImp.h:280-313 | the loop counts the items that have producers |
| `FrameControl.FrameControl.ConfigureInformationKeeping` | pipeline/pipeline/PipelineBufferSetFrameControlImp.cpp:774-800 | the three pending sets get the flags and targets of the specification, the App metas also for the time stamp; `KeepingFollowsCalls` says what that makes of a run |
| `FrameControl.FrameControl.TransferPendingReleaseBuffers` | pipeline/pipeline/PipelineBufferSetFrameControlImp.cpp:811-836 | the users of each pending image are reset and the images handed out |
| `FrameControl.FrameControl.OnLastStrongRef` | pipeline/pipeline/PipelineBufferSetFrameControlImp.cpp:392-553 | pending buffers, left Hal images and the end of the frame, as specified; `EndIsTold` and `EveryImageLeavesOnce` say what that is |
| `UsersManager.CountsAreExact` | pipeline/utils/streambuf/UsersManagerImp.cpp:1204-1256 | while every bit stands for its user, counting bits answers for all users: haveAllUsersReleased and haveAllUsersReleasedOrPreReleased are OK if and only if every user is marked so |
| `UsersManager.DfsFindsAncestors` | pipeline/utils/streambuf/UsersManagerImp.cpp:391-429 | getPriorUsers finds exactly the users from which a path leads to the user |
| `UsersManager.PriorIsMayAcquire` | pipeline/utils/streambuf/UsersManagerImp.cpp:1129-1184 | the question about prior users is answered with yes exactly if all users ahead, of either category, have let go |
| `UsersManager.MarkOk` | pipeline/utils/streambuf/UsersManagerImp.cpp:675-762 | marking keeps every bit at the place of its user |
| `UsersManager.MarkStandsFor` | pipeline/utils/streambuf/UsersManagerImp.cpp:675-762 | marking the manager is marking the abstract users that the frame works with |
| `UsersManager.LateUserIsFineExactly` | pipeline/utils/streambuf/UsersManagerImp.cpp:638-654 | a user added while the manager is in use leaves every bit at its user if and only if no user of its category with a larger id has been marked |
| `LateUsers.LateUserExactIff` | pipeline/utils/streambuf/UsersManagerImp.cpp:638-654 | after a user was added to a manager in use, haveAllUsersReleasedOrPreReleased answers right, whatever is marked afterwards, if and only if no user of its category with a larger id has marked RELEASE or PRE_RELEASE |
| `LateUsers.LateUserMisleads` | pipeline/utils/streambuf/UsersManagerImp.cpp:1237-1256 | some later marks make it say OK while a user has not let go, if and only if some larger user of the category has let go and every larger one that has marked both statuses is followed by one that has let go |
| `LateUsers.LateUserCanBeOk` | pipeline/utils/streambuf/UsersManagerImp.cpp:1237-1256 | some later marks make it say OK at all if and only if every larger user that has marked both statuses is followed by one that has let go |
| `LateUsers.LateUserCanBeReleased` | pipeline/utils/streambuf/UsersManagerImp.cpp:1204-1232 | some later marks make haveAllUsersReleased say OK if and only if no larger user of the category has released; then it says so exactly when all users have |
| `LateUsers.OkWithoutTheLateUser` | pipeline/utils/streambuf/UsersManagerImp.cpp:638-654 | a concrete manager that says OK while the added user has marked nothing |
| `LateUsers.LateConsumerStandsFor` | pipeline/utils/streambuf/UsersManagerImp.cpp:638-654 | a consumer added to the manager is the one that the frame’s step adds to the abstract users, and the bits stay with their users if and only if it was known or no larger consumer was marked |
| `LateUsers.LateConsumerAnswers` | pipeline/utils/streambuf/UsersManagerImp.cpp:1204-1256 | then, whatever is marked afterwards, the manager answers both questions as the abstract users of the frame do |
| `UsersManager.UsersManager.MarkUserStatus` | pipeline/utils/streambuf/UsersManagerImp.cpp:675-762 | the method is the specified marking |
| `UsersManager.UsersManager.HaveAllUsersReleased` | pipeline/utils/streambuf/UsersManagerImp.cpp:1204-1230 | the method answers by the counts |
| `UsersManager.UsersManager.AddLateUser` | pipeline/utils/streambuf/UsersManagerImp.cpp:638-654 | the method inserts the user and leaves the bits where they are |
| `Dispatch.JoinRunOk` | pipeline/pipeline/Dispatcher.cpp:359-425 | in every interleaving the request counters equal the edges counted so far and the log of hand-offs is ordered |
| `Dispatch.HandOffsAreOrdered` | pipeline/pipeline/Dispatcher.cpp:359-425 | a node is handed the frame at most once, by queue or by flush, and only after all its in-neighbours were handed it and counted the edge: hand-offs follow a topological order |
| `Dispatch.EveryMoveCounts` | pipeline/pipeline/Dispatcher.cpp:359-425 | each move takes exactly one from the edges, nodes and roots still to do |
| `Dispatch.EveryRunIsAsLong` | pipeline/pipeline/Dispatcher.cpp:334-429 | every complete interleaving has the same length and ends with every node handed the frame exactly once |
| `Dispatch.QuietMeansAllSent` | pipeline/pipeline/Dispatcher.cpp:334-429 | when nothing can move, every node has begun to dispatch and counted all its out-edges |
| `Dispatch.LoopIsSending` | pipeline/pipeline/Dispatcher.cpp:359-425 | the loop over out-neighbours makes exactly the counting moves of the join, in order, each with the flush flag as it is read at its edge |
| `Dispatch.HandedOnIff` | pipeline/pipeline/Dispatcher.cpp:359-425 | a dispatch hands the frame to a node after it if and only if that node’s counter lacked just this edge, and by flush if and only if the dispatcher was flushing or the frame aborted when the edge was counted |
| `Dispatch.DefaultDispatcher.OnDispatchFrame` | pipeline/pipeline/Dispatcher.cpp:334-429 | the loop leaves the counters and makes the calls that the specification says, queue or flush by the flag and the abort as they stand at each edge |
| `BaseNode.BaseNode.Flush` | pipeline/hwnode/BaseNode.cpp:555-651 | all streams of the node are asked for and marked RELEASE in the order of the four loops, then the release is applied and the frame handed on |
| `BaseNode.FlushStreamsKeep` | pipeline/hwnode/BaseNode.cpp:555-645 | flushing streams adds and removes no items, so the release that follows is defined |
| `FlushDrain.FlushDrainsFrame` | pipeline/hwnode/BaseNode.cpp:555-651 | for every interleaving, whichever acquisitions fail and whichever consumers are added late: once the frame has been handed through the graph no node lists anything, the in-flight count is zero and every item a node was to use, and that got no late consumer, has been released |
| `FlushDrain.LateWereAdded` | pipeline/utils/streambuf/UsersManagerImp.cpp:638-654 | the items exempted are exactly those for which a consumer was added during the run |
| `FlushDrain.FlushRunOk` | pipeline/hwnode/BaseNode.cpp:555-651 | the invariant of the combined system of frame, join and flushing nodes holds after every event |
| `FlushDrain.ProtocolMoves` | pipeline/hwnode/BaseNode.cpp:555-651 | every protocol event brings the end one nearer, and no other event changes the distance |
| `FlushDrain.FlushMovesOn` | pipeline/hwnode/BaseNode.cpp:555-651 | as long as the frame is not through and every node that holds it was flushed, some protocol event is possible |
| `FlushRuns.FlushRunsDrain` | pipeline/hwnode/BaseNode.cpp:555-651 | a run in which each node that got the frame was flushed makes at most a number of protocol events that plan and graph give; another one is possible exactly while there are fewer; when there are as many the frame is drained |
| `FlushDrain.AheadHasLetGo` | pipeline/pipeline/PipelineContextImpl.cpp:2705-2880 | when a node holds the frame, every node ahead of it in the user graph has let go of its items |
| `FlushDrain.TurnLetsGo` | pipeline/hwnode/BaseNode.cpp:555-645 | one turn of a flushed node makes it let go of the stream’s item, acquired or not, and by RELEASE as long as the item is mapped |
| `InFlightIndex.ListsMirrorFrames` | pipeline/pipeline/InFlightRequest.cpp:144-187 | for every node and either message the list holds, in registration order, exactly the frames whose notification has not been delivered |
| `InFlightIndex.FramesMirror` | pipeline/pipeline/InFlightRequest.cpp:313-342 | the frame list holds, in order, exactly the frames that have not said FRAME_RELEASED |
| `InFlightIndex.SecondReleaseIsHarmless` | pipeline/pipeline/InFlightRequest.cpp:313-342 | a second FRAME_RELEASED changes nothing |
| `InFlightIndex.NodeDrainedIsSound` | pipeline/pipeline/InFlightRequest.cpp:214-265 | when waitUntilNodeDrained returns, every frame registered for the node before the call has released its output metas and images |
| `InFlightIndex.NodeDrainedAtOnceIff` | pipeline/pipeline/InFlightRequest.cpp:214-265 | both lists are empty when waitUntilNodeDrained returns if and only if every frame registered for the node since the meta list was seen empty has had its meta notification delivered |
| `InFlightIndex.NodeDrainedWhenQuiet` | pipeline/pipeline/InFlightRequest.cpp:214-265 | so they are for a caller that registers no frame for the node during the call |
| `InFlightIndex.NodeDrainedIsNotAtomic` | pipeline/pipeline/InFlightRequest.cpp:214-265 | a concrete log in which they are not |
| `InFlightIndex.EmptyNodeWasAnnounced` | pipeline/pipeline/PipelineBufferSetFrameControlImp.cpp:1664-1685 | a node that lists nothing has been announced exactly once for metas and once for images, even if it never had such outputs |
| `InFlightIndex.EmptyNodeLeavesIndex` | pipeline/pipeline/InFlightRequest.cpp:349-403 | so, once the notices are delivered, the frame is in neither list of that node |
| `InFlightIndex.InFlightRequest.RegisterRequest` | pipeline/pipeline/InFlightRequest.cpp:144-187 | the loop over the nodes ends at the first failed query and indexes those with outputs |
| `InFlightIndex.InFlightRequest.OnNode` | pipeline/pipeline/InFlightRequest.cpp:349-403 | the entry goes from the list of the node, if there is one |
| `InFlightIndex.InFlightRequest.OnFrameReleased` | pipeline/pipeline/InFlightRequest.cpp:313-342 | the frame goes from the frame list |
| `InFlightIndex.AbortsInOrder` | pipeline/pipeline/InFlightRequest.cpp:272-306 | abort reaches exactly the frames in flight that can still be promoted, each behind those registered before it and ahead of those after it |
| `InFlightIndex.InFlightRequest.Abort` | pipeline/pipeline/InFlightRequest.cpp:272-306 | the frames that can still be promoted, in order |
| `InitFrames.RunOk` | pipeline/pipeline/InitFrameHandler.cpp:449-514 | at every point of every run accepted = sent, then the one being sent, then the waiting ones, in order, and `mFrameCountSent` is the number sent modulo 2^32 |
| `InitFrames.NothingAfterDrained` | pipeline/pipeline/InitFrameHandler.cpp:272-362 | once deactivateAndWaitUntilDrained has returned, everything accepted has been sent once and in order, and nothing is accepted afterwards |
| `InitFrames.ExitedIsDrained` | pipeline/pipeline/InitFrameHandler.cpp:415-442 | the thread never exits with frames left |
| `InitFrames.DrainingMovesOn` | pipeline/pipeline/InitFrameHandler.cpp:310-362 | while frames are left the thread can go on, and once inactive the work left falls with each of its steps, so the wait ends |
| `InitFrames.ExitMovesOn` | pipeline/pipeline/InitFrameHandler.cpp:310-362 | once an exit was requested the thread leaves after at most two of its steps, each of which is possible, and nothing else holds it up |
| `FeatureStrategy.RawPlanDistinct` | main/standalone_isp/FeatureSettingPolicy_ISP.cpp:867-931 | no raw provider is taken twice |
| `FeatureStrategy.LeftIsUncovered` | main/standalone_isp/FeatureSettingPolicy_ISP.cpp:867-931 | the loop leaves exactly the features that no raw provider of the plan has |
| `FeatureStrategy.EachIsFirstAtItsTurn` | main/standalone_isp/FeatureSettingPolicy_ISP.cpp:214-230 | each provider taken is the highest-priority match for what was still to find at its turn |
| `FeatureStrategy.WorksIff` | main/standalone_isp/FeatureSettingPolicy_ISP.cpp:601-747 | a feature set works out if and only if the planned providers have all its features and all of them agree |
| `FeatureStrategy.KeptUpToRefusal` | main/standalone_isp/FeatureSettingPolicy_ISP.cpp:601-747 | the raw selections kept are those before the first refusal, and the multi-frame one only if no raw provider refused and it agrees |
| `FeatureStrategy.WorkingCovers` | main/standalone_isp/FeatureSettingPolicy_ISP.cpp:601-747 | a feature set that works out has every feature covered by providers that negotiated OK: raw ones once each and at most one multi-frame provider |
| `FeatureStrategy.TryGetKeyFeature` | main/standalone_isp/FeatureSettingPolicy_ISP.cpp:214-230 | whenever its loop ends, the lookup finds the first provider with a wanted feature, or reports none |
| `FeatureStrategy.LookupEndsIff` | main/standalone_isp/FeatureSettingPolicy_ISP.cpp:217-224 | the loop with its 8-bit counter ends if and only if there are fewer than 256 providers or one of the first 256 matches |
| `FeatureStrategy.IndexIsPlace` | main/standalone_isp/FeatureSettingPolicy_ISP.cpp:214-230 | the 8-bit index is the provider’s place if and only if the place is below 128 |
| `FeatureStrategy.FeatureSettingPolicy.StrategyRaws` | main/standalone_isp/FeatureSettingPolicy_ISP.cpp:867-900 | the do-while loop ends, agrees exactly if all providers of the plan do, and keeps one selection for each that agreed |
| `FeatureStrategy.FeatureSettingPolicy.StrategyCaptureFeature` | main/standalone_isp/FeatureSettingPolicy_ISP.cpp:867-931 | the answer and both temporary maps are those of the plan |
| `FeatureStrategy.FeatureSettingPolicy.UpdatePluginSelection` | main/standalone_isp/FeatureSettingPolicy_ISP.cpp:825-841 | pushes or cancels; both temporary maps are empty afterwards |
| `FeatureStrategy.FeatureSettingPolicy.EvaluateCaptureSetting` | main/standalone_isp/FeatureSettingPolicy_ISP.cpp:934-1013 | from empty temporary maps: both are empty again, and the plugin queues have grown by one selection for each provider kept for the first feature set that works out, or by nothing if none does |
| `FeatureStrategy.PluginFindsItsSelection` | main/standalone_isp/FeatureSettingPolicy_ISP.cpp:640-730 | a provider that pops with the token of the request (its key, request number, frame index and sensor, not physical) gets the selection kept for it, and with any other token nothing |
| `FeatureStrategy.KeptForEach` | main/standalone_isp/FeatureSettingPolicy_ISP.cpp:269-308 | what is kept for each provider is one selection |
| `SelectionQueues.GivenWasPushed` | 3rdparty/core/PipelinePlugin.cpp:363-420 | every selection pushed was given out or is still queued, as often as it was pushed |
| `SelectionQueues.QueueKeepsPushOrder` | 3rdparty/core/PipelinePlugin.cpp:363-420 | with distinct tokens, after any mix of pops the queue holds exactly the selections not given out, in push order |
| `SelectionQueues.PopTakesFirst` | 3rdparty/core/PipelinePlugin.cpp:382-420 | in any queue, null entries included, a pop by token takes out the first selection with the token and leaves the rest in order; without one it takes nothing |
| `SelectionQueues.EveryFrameIsServed` | main/standalone_isp/FeatureSettingPolicy_ISP.cpp:285-312 | a single kept selection serves every frame of a multi-frame request, one pop after the other, by token or without; anything else is pushed as it was kept |
| `SelectionQueues.PopGivesWhatWasPushed` | 3rdparty/core/PipelinePlugin.cpp:382-420 | a pop by token gives a selection if and only if one was pushed with the token and not given out yet, and then that one |
| `SelectionQueues.PipelinePlugin.PopSelection` | 3rdparty/core/PipelinePlugin.cpp:382-420 | the method is the specified pop, with and without a token |
| `SelectionQueues.PipelinePlugin.FrontSelection` | 3rdparty/core/PipelinePlugin.cpp:421-454 | looks without taking |
| `SelectionQueues.PluginWrapper.PushSelection` | main/standalone_isp/FeatureSettingPolicy_ISP.cpp:286-308 | each queue grows by what was kept for its provider, a single selection repeated for every frame, and the temporary map is empty |
| `OpaqueHeap.SetAppOk` | pipeline/hwnode/MyUtils.h:364-393 | setting app metadata keeps layout, raw area, fixed fields and hal metadata; it succeeds if and only if there is a record, none yet and it fits, and then reads back; without a record, or with metadata there, it says so |
| `OpaqueHeap.SetHalOk` | pipeline/hwnode/MyUtils.h:395-424 | the same for hal metadata |
| `OpaqueHeap.RunReadsBack` | pipeline/hwnode/MyUtils.h:316-467 | after any sequence of sets, failed and repeated ones included, the ranges are apart and inside the payload and each getter reads what was last set with success |
| `OpaqueHeap.InfoFits` | pipeline/hwnode/MyUtils.h:316-342 | the record lies in the heap exactly if the heap is no smaller than it; only then does the size check say what it is for, since the subtraction wraps otherwise |
| `OpaqueHeap.ImageComesBack` | pipeline/hwnode/MyUtils.h:328-362 | the raw image taken back from a heap after any sets has the width, height, format, stride and bytes it was put there with |
| `OpaqueHeap.OpaqueBuffer.GetImageBuffer` | pipeline/hwnode/MyUtils.h:344-362 | the method gives that image, or none without a record |
| `OpaqueHeap.NewIsOk` | pipeline/hwnode/MyUtils.h:316-342 | a new record describes two empty ranges behind the raw area |
| `OpaqueHeap.OpaqueBuffer.SetOpaqueInfo` | pipeline/hwnode/MyUtils.h:316-342 | writes the record, or fails and changes nothing |
| `OpaqueHeap.OpaqueBuffer.SetAppMetadata` | pipeline/hwnode/MyUtils.h:364-393 | the method is the specified set |
| `OpaqueHeap.OpaqueBuffer.SetHalMetadata` | pipeline/hwnode/MyUtils.h:395-424 | the method is the specified set |
| `OpaqueHeap.OpaqueBuffer.GetAppMetadata` | pipeline/hwnode/MyUtils.h:426-446 | reads the bytes of the app range |
| `OpaqueHeap.OpaqueBuffer.GetHalMetadata` | pipeline/hwnode/MyUtils.h:448-467 | reads the bytes of the hal range |
| `CropMath.DivRoundIsNearest` | pipeline/hwnode/MyUtils.h:75-78 | `div_round` is within half a unit of the exact quotient for every sign of both numbers |
| `CropMath.DivRoundStaysIn32` | pipeline/hwnode/MyUtils.h:75-78 | the sum it divides fits in 32 bits exactly if the numerator leaves room for half the denominator |
| `CropMath.TransformRoundTrip` | pipeline/hwnode/MyUtils.h:114-134 | a point transformed there and back is itself on every axis whose new scale is no smaller than the old one, and otherwise off by at most half of old / new + 1 |
| `CropMath.CornersToCorners` | pipeline/hwnode/MyUtils.h:94-134 | the transform maps the origin and the far corner of the old area to those of the new one, and the inverse maps them back, exactly |
| `RequestQueue.WindowOrder` | pipeline/hwnode/RAW16Node.cpp:423-451 | inside a window of less than half the range the wrapped comparison is the order by distance from its start |
| `RequestQueue.WindowIffOrdered` | pipeline/hwnode/RAW16Node.cpp:435-443 | the numbers of a queue lie in a window of less than half the range if and only if any two of them can be compared and no three form a circle |
| `RequestQueue.NoWindowNoOrder` | pipeline/hwnode/RAW16Node.cpp:435-443 | three concrete numbers that form such a circle |
| `RequestQueue.InsertSorts` | pipeline/hwnode/RAW16Node.cpp:423-451 | in a window, queueing keeps the queue sorted, adds the frame once and puts it behind all frames with the same number |
| `RequestQueue.QueueStaysInOrder` | pipeline/hwnode/RAW16Node.cpp:423-451 | over a whole run the queue stays in order, as the code compares, as long as the queued numbers lie in some window at each moment |
| `RequestQueue.FramesAreAccountedFor` | pipeline/hwnode/RAW16Node.cpp:394-495 | in every run each queued frame is queued, in work, flushed or done, exactly once; the drained flag is only up while no frame is processed; when flush returns every frame queued before it has been flushed or finished |
| `RequestQueue.FlushReturnsTo` | pipeline/hwnode/RAW16Node.cpp:629-641 | when flush returns from its wait: the drained flag is up if and only if no frame was taken since the last signal; a frame is in work if and only if one was taken since and not finished; flag up and queue empty if and only if nothing was queued since |
| `RequestQueue.FlushReturnsAtOnce` | pipeline/hwnode/RAW16Node.cpp:629-641 | flush returns without waiting exactly if the flag is up, and then no frame is in work |
| `RequestQueue.ReturnedIsNotDrained` | pipeline/hwnode/RAW16Node.cpp:629-641 | a concrete run in which a frame is in work at the very moment when flush returns from its wait |
| `RequestQueue.SignalledUnlessExit` | pipeline/hwnode/RAW16Node.cpp:468-486 | in every run a flush that waits can still be signalled if and only if no exit was requested; then the thread alone gets there in as many steps as it has work, and otherwise the flush waits for ever |
| `RequestQueue.ExitBeforeFlush` | pipeline/hwnode/RAW16Node.cpp:742-749 | a concrete run in which the exit is requested before the flush, and the flush is lost |
| `RequestQueue.ExitDuringFlush` | pipeline/hwnode/RAW16Node.cpp:742-749 | a concrete run in which it is requested while the flush waits, with the thread still there |
| `RequestQueue.LeftBeforeFlush` | pipeline/hwnode/RAW16Node.cpp:742-749 | a concrete run in which the thread has left before the flush |
| `RequestQueue.RAW16Node.Queue` | pipeline/hwnode/RAW16Node.cpp:423-451 | the backward loop inserts at the specified place |
| `RequestQueue.RAW16Node.TryDeque` | pipeline/hwnode/RAW16Node.cpp:458-495 | one look of the thread at the queue: the end, nothing, or the front frame, with the drained flag |
| `RequestQueue.RAW16Node.ClearRequests` | pipeline/hwnode/RAW16Node.cpp:394-416 | every queued frame is taken out once, in order |
| `PackRounds.OneRoundPerStream` | pipeline/hwnode/IspTuningDataPackNode.cpp:1371-1390 | the loop ends after exactly one round for each output meta stream that some configured group packs |
| `PackRounds.NothingPackedTwice` | pipeline/hwnode/IspTuningDataPackNode.cpp:630-720 | no stream is packed twice |
| `PackRounds.RoundsUseFirstGroup` | pipeline/hwnode/IspTuningDataPackNode.cpp:630-720 | each round uses the first group that packs its stream |
| `PackRounds.UnclearedIsFresh` | pipeline/hwnode/IspTuningDataPackNode.cpp:742-785 | a meta map that was not cleared between rounds selects the same streams as a fresh one |
| `PackRounds.RoundWorksOn` | pipeline/hwnode/IspTuningDataPackNode.cpp:742-785 | which stream each round gets for each role: the greatest one of the group’s list for the role that is in the frame and in no list of an earlier role; the output meta it packs; the group’s output image if the frame has it |
| `PackRounds.LastIsGreatest` | pipeline/hwnode/IspTuningDataPackNode.cpp:742-785 | the stream selected for a role is the one with the greatest id among those of the group that are there |
| `PackRounds.Packer.ProcessOnePack` | pipeline/hwnode/IspTuningDataPackNode.cpp:630-720 | one search through the groups, with the streams packed into the maps |
| `PackRounds.Packer.NextRound` | pipeline/hwnode/IspTuningDataPackNode.cpp:1371-1390 | a round works on what it would with fresh maps, and leaves one stream fewer |
| `PackRounds.Packer.ProcessAll` | pipeline/hwnode/IspTuningDataPackNode.cpp:1371-1390 | the rounds are the specified ones, up to the first that fails |
| `NodeLifeCycle.CallbacksInLanguage` | pipeline/pipeline/NodeActorImpl.cpp:269-347 | for any calls and any results the callbacks are closed cycles (init, configs, uninit) and an open last one, and the node is Configured exactly if that one is an OK init followed by one or more OK configs |
| `NodeLifeCycle.ConfiguredIffCycle` | pipeline/pipeline/NodeActorImpl.cpp:241-264 | in each state the open cycle has the form that goes with it |
| `NodeLifeCycle.FailureIsToldOnce` | pipeline/pipeline/NodeActorImpl.cpp:241-347 | after a failed init, config or reconfig the same call answers OK without a callback |
| `NodeLifeCycle.OkMeansDone` | pipeline/pipeline/NodeActorImpl.cpp:241-347 | in every run an OK from init means that the node is initialized unless the last callback was a failed init, and an OK from config or reconfig that it is Configured unless the last callback was a failed one of these |
| `NodeLifeCycle.AnswersFollowCallbacks` | pipeline/pipeline/NodeActorImpl.cpp:241-347 | in every run, by the callbacks so far: which calls go to the node, with their callback and its result as answer, and for the others which are an invalid operation and which are OK |
| `NodeLifeCycle.LastCallbackTells` | pipeline/pipeline/NodeActorImpl.cpp:241-347 | in every run a node is in one of the states in between exactly if the last callback it got has failed |
| `SortedKeys.InsertKeySorts` | pipeline/pipeline/PipelineBufferSetFrameControlImp.h:515-560 | a sorted vector of keys stays sorted and gains the key once, at its place |

## Left out

- FrameInvariant.AddConsumerOk: adds the consumer to the abstract users of the item; the bits that the original leaves at shifted places are modelled in `UsersManager` and `LateUsers`, which say when that makes no difference.
- UsersManager.LateUserIsFineExactly: the limit of 32 users of a bit set is not modelled.
- FrameLife.CountZeroTellsReleased: says nothing of an item that got a late consumer, nor of a Hal image that no node lists, which the AIAWB branch may or may not have freed.
- OpaqueHeap.OpaqueBuffer.SetOpaqueInfo: the object is a heap that has room for the record; a smaller one is what `InfoFits` is about.
- FlushDrain.FlushMovesOn: says that a protocol event is possible while all nodes that hold the frame were flushed; a queued node takes as long as it likes.
- InitFrames.DrainingMovesOn: bounds the thread's steps, not time; time-outs of the waits only log.
- RequestQueue.FramesAreAccountedFor: one flush at a time; spurious wake-ups of condition variables are not modelled.
- CropMath.TransformRoundTrip: in unbounded integers; a product that leaves 32 bits is undefined in C++, and `DivRoundStaysIn32` says when the sum in `div_round` does not.
- FeatureStrategy.WorkingCovers: which provider agrees (its state can be queried, it negotiates OK and the decision is taken over) is a parameter for each feature set; the metadata written for the request are not modelled; the 64-bit masks are sets of bits.
- OpaqueHeap.RunReadsBack: metadata are their flattened bytes; a failed flatten may scribble into the room it was given, and unflatten is reading the bytes back.
- PackRounds.Packer.ProcessAll: the work of a round (reading buffers, packing tuning data to the heap) is one outcome, success or error.
- Items are values in a map: two maps holding the same buffer object, or a users manager shared between frames, are not captured.
- Buffers do not carry their status, usage, fences or heaps; sensor time stamps, physical ids and the other fields of the callbacks are not modelled.
- The float transforms, rounding to lower values and rectangles of MyUtils.h: wrappers around the same formula or floating point.
- The evaluation of the frame's graph from the configured one, topological sorting and path search in PipelineDAGImp.cpp: the model takes a graph with a topological order as given.
- The builder of requests in PipelineContextImpl.cpp, scenario tables, metadata policies, sensor control, Dng and Jpeg nodes: plumbing or calls into code that is not here.
- Waiting for a node to be ready before the roots are sent, priorities and the scheduling of threads.
- Logging, dumping, tracing and debug properties; debug overrides count as off.
