# A verified model of debswarm

debswarm is a caching proxy for Debian packages. Machines on one network elect a
single one of them to fetch a cold package from the Internet, fetch large packages
in chunks from several sources at once, and keep what they fetched in a bounded
cache addressed by content. This project models the parts of it whose promises are
about whole runs, and proves those promises for every run.

| module | models |
|---|---|
| `FleetElection`, `ElectionCompletes`, `ElectionRuns` | one election played by a whole fleet, every locked section a step, messages delayed, reordered, duplicated or lost at will; that it can always be brought to its end; runs of it that break a promise |
| `ClaimWindow` | the select loop of a claim window on its own |
| `Coordinator`, `WaiterOutcomes` | one fleet node as an object: in-flight table, wait channels, message handlers, reaper; the machine of everything that can happen to it; what every waiter is told |
| `ChunkGrid`, `ChunkedDownload`, `Assembly`, `DownloadCompletes`, `Betrayals`, `Downloader`, `DownloadState` | the chunk grid; the worker pool with crashes and resumption as a machine; what it assembles from honest sources, and that it can always be brought to its end; runs of it that break a promise; its loops as methods over arrays; the persisted tables as an object |
| `PackageCache`, `MetadataCache`, `Eviction`, `TableSum` | the two caches as objects, their failure paths, and every run of their operations; the walk along eviction candidates they share |
| `PackageIndex`, `IndexHistory`, `Stanzas`, `StanzaFiles`, `IndexStore` | what the four index maps mean, over whole histories too; reading `Packages` and `Sources` files, and what written ones are read as; the index object that parses and clears line by line and entry by entry |
| `Windows` | sync windows and the scheduler |
| `FleetCodec`, `Transport`, `BigEndian` | fleet frames on a stream; peer ranges and HTTP ranges |

Machines are written as a datatype of actions with `Enabled` and `Apply`; a run is a
sequence of actions. Objects are classes whose methods are proved equal to the
functions that the machines are made of, so what is proved of the machines holds of
the objects.

## Where the code falls short of a promise

Each of these has a lemma with the exact condition, and where it says so a concrete run.

- **One fetcher per package.** It needs more than that all requests overlap. The want
  handler looks at the cache, the in-flight table and the pending wants under three
  separate locks. A winner that decides between the last two answers "not racing", and
  its rival elects itself too (`StraddledWantElectsTwo`). A request looks for a claim
  and queues on it under two locks; if the claim is gone by then it fetches on its own
  (`VanishedClaimElectsTwo`). With overlap, and as long as the lowest-nonce node itself
  does not straddle its decision or the end of its claim, it wins alone, whatever the
  others are in the middle of (`ElectionTheorem`). Without any assumption, who fetches
  is settled exactly by what each node consumed and whether it strayed
  (`WanFetchersExactly`, `OnlyFetcherExactly`).
- **Whoever waits is told.** A node that is told while it waits is released for good
  (`ReportReleases`), and one that waits on a winner that is done has its claim and can
  still be told (`WaiterFinishes`). A report that comes while a node is still collecting
  is not remembered, though: if that node then elects the same winner, it waits in vain
  until it is told again or its wait runs out (`EarlyReportIsMissed`).
- **No waiter is forgotten.** Winning an election overwrites the in-flight entry. That
  keeps all waiters exactly when the entry had none (`ClaimSelfConservesExactly`);
  one active request per package guarantees it, two overlapping ones do not
  (`OverlappingRequestsStrandWaiter`).
- **A completed chunk row is true.** A step makes a row lie exactly when it is one of
  three: the wipe after a digest mismatch while rows are completed, a success whose
  record is not deleted, or a torn write over a completed chunk
  (`ChunkedDownload.StepKeeps`); each is reached by a run (`WipeBetrays`,
  `UndeletedRecordBetrays`, `TornWriteBetrays`). The last one is possible because an
  attempt with resumption off still writes into the same partial directory. The final
  digest check protects the result in all cases (`OnlyVerifiedFilesReturned`), and no
  chunk is lost in any (`NoChunkLost`). A row that lies makes a later download fail its
  digest although every source is honest (`HonestDownloadFails`): given honest sources,
  a completed file is the content exactly when every chunk recovered at its beginning
  was right (`AssembledExactly`).
- **A row recorded for another chunk size.** An attempt that finds a record with another
  chunk size recovers nothing from it, but still marks its own chunk numbers completed
  there. Such a row is true exactly when the written chunk covers it
  (`ForeignRowExactly`), which between the first and the last chunk means only when the
  sizes agree (`InnerRowsNeedSameGrid`).
- **The package cache's size counter.** A store counts a package twice exactly when its
  row is there, survives making room, cannot be read, and is written all the same
  (`PackageCache.CommitBooks`, `UnreadableRowMiscounts`).
- **The metadata cache's size counter.** The old size is read before room is made. When
  making room evicts the very entry being replaced, its size is subtracted twice
  (`MetadataCache.CommitBooks`; the condition is stated on the state before the call),
  and more bytes than the budget can be stored under a counter that looks fine
  (`ReplacedVictimOverrunsBudget`).
- **A failed commit leaves the cached copy untouched.** So says the comment on `Commit`.
  The code may evict the copy while making room, also when room is not found in the
  end, and removes the old file before a rename or insert that can still fail
  (`FailedRenameLosesCopy`). The copy is lost exactly then (`FailedCommitExactly`).
- **A listed digest or path leads to its package.** Two files may list the same digest, or
  the same path of a repository. The map keeps the entry indexed last, and when its
  file drops it the key is gone, although the other file still lists it
  (`LookupsExactly`, `SharedDigestVanishes`). The basename list is exact and still
  leads to the package.
- **Listed once.** When a `Packages` file reaches the limit of 500,000 packages at a
  blank line, the loop stops with the stanza still at hand and indexes it again, so
  its last entry is listed twice under its basename; all others once (`ListedOnce`,
  `LimitListsTwice`).
- **Inside a window when it opens.** A window from 00:00 to 00:00 is empty, yet its
  start is announced as the next opening (`OpensWhenAnnounced`,
  `MidnightWindowNeverOpens`).
- **Fleet frames.** Writing accepts digests of up to 65535 bytes, reading up to 1024;
  a stream is delivered in full exactly when all fit the reader (`WholeStream`).
- **Open HTTP ranges.** One that exceeds the response limit is cut without an error
  (`OpenRangeExactly`). The downloader asks for closed ranges only.

## Model

| member | source | states |
|---|---|---|
| FleetElection.FoldLeastBid | internal/fleet/coordinator.go:339-384 | taking one more bid into account, however bids are ordered or repeated, the elected peer stays the least one heard below the own nonce, or nobody |
| FleetElection.SelectTruthful | internal/fleet/coordinator.go:339-416 | whatever message the select loop takes, a node's verdict stays justified by the messages it has consumed |
| FleetElection.WanFetchersExactly | internal/fleet/coordinator.go:186-416 | in every run whatsoever, a wanter that has decided fetches from the WAN if and only if it strayed (the claim it found was gone, it was cancelled, its wait ran out, its copy failed) or found no claim and nothing it consumed told it to stand back: no lower bid, no cached copy, no announced fetch below its nonce |
| FleetElection.OnlyFetcherExactly | internal/fleet/coordinator.go:186-416 | in every run, once all wanters decided, a node is the only WAN fetcher if and only if it is the only one that strayed or campaigned undisturbed |
| FleetElection.SelectEvidence | internal/fleet/coordinator.go:339-411 | what a consumed message proves: the lowest-nonce node never elects a rival, a rival that heard from it elects it |
| FleetElection.EarlyKeeps | internal/fleet/coordinator.go:186-247 | until every wanter has registered, an orderly fleet has no claim, no routed message and no handler under way, so nobody finds a claim to join |
| FleetElection.ElectionStep | internal/fleet/coordinator.go:186-512 | every overlapping step of every node, unless the lowest-nonce node straddles its own decision or retirement, keeps the invariant that it is the only candidate for the WAN |
| FleetElection.ElectionRun | internal/fleet/coordinator.go:186-512 | the same over every orderly run |
| FleetElection.ElectionTheorem | internal/fleet/coordinator.go:186-466 | for any number of nodes, any message order and whatever the rivals are in the middle of: only the lowest nonce fetches from the WAN, every other decided wanter waits on it or copies from a holder, and once all decided the WAN fetchers are exactly that one (that whoever waits gets its copy is `WaiterFinishes` and `AlwaysCompletes`) |
| ElectionRuns.StraddledWantElectsTwo | internal/fleet/coordinator.go:651-741 | a run with full overlap reaches a state with two WAN fetchers, because the winner decides in the middle of its want handler |
| ElectionRuns.VanishedClaimElectsTwo | internal/fleet/coordinator.go:192-209 | a run without failures reaches a state with two WAN fetchers, one of which found a claim and never campaigned |
| ElectionRuns.EarlyReportIsMissed | internal/fleet/coordinator.go:818-837 | an orderly run in which a node waits on a winner that is done, although it has received the report: it was still collecting then |
| ElectionCompletes.WaiterFinishes | internal/fleet/coordinator.go:818-837 | in every orderly run, whoever waits on the winner when the winner is done has a claim on it and the report on the wire; finishing the handler at hand, taking the report and copying is an orderly run that leaves it served and cached |
| ElectionCompletes.ReportReleases | internal/fleet/coordinator.go:818-837 | in every orderly run, a waiting node that receives the report of its fetcher is released at once and never waits again, whatever follows |
| ElectionCompletes.AlwaysCompletes | internal/fleet/coordinator.go:186-859 | every orderly run, wherever it stands, can be continued in order until the lowest-nonce wanter is done and every other wanter is served and cached |
| ElectionCompletes.WantIsAnswered | internal/fleet/coordinator.go:651-741 | left alone, a node answers a want by a cached copy, else its announced fetch, else its own bid while it collects (and then takes the asker's bid into account), else that it is not racing |
| ElectionCompletes.AnnouncementIsRouted | internal/fleet/coordinator.go:777-807 | left alone, a node records an announced fetch unless it has a claim, and routes it to its claim window if that is open |
| ElectionCompletes.NobodyToAsk | internal/fleet/coordinator.go:268-272 | a node whose want reaches nobody fetches at once |
| ClaimWindow.Collect | internal/fleet/coordinator.go:339-411 | the window closes at the first decisive event, at the answer of the last reached peer and not before, or at the timer; and elects the least nonce heard below the own one |
| ClaimWindow.VerdictExactly | internal/fleet/coordinator.go:286-411 | what a verdict says about the events: nothing decisive before the last, a copy or a followed fetch offered by the last, an own fetch only if no want and no refusal with a bid was below the own nonce, else a wait on a lowest one |
| ClaimWindow.LowestExtends | internal/fleet/coordinator.go:250-272 | one more event keeps the best bid the least one |
| ClaimWindow.TallyExtends | internal/fleet/coordinator.go:339-411 | the set still awaited is empty exactly when every reached peer answered that it does not have the package |
| ClaimWindow.ElectionOrderIrrelevant | internal/fleet/coordinator.go:250-272 | two interleavings with the same bids, in any order and repeated at will, elect the same |
| Coordinator.ReleaseAllExactly | internal/fleet/coordinator.go:479-512 | releasing open distinct channels gives each the outcome, closes each once, touches no other and never aborts |
| Coordinator.DropExactly | internal/fleet/coordinator.go:479-532 | ending an entry gives each of its waiters the outcome and one close and touches no other channel, without any discipline of the callers |
| Coordinator.DropConserves | internal/fleet/coordinator.go:479-532 | ending an entry releases exactly its waiters and keeps every wait channel accounted for |
| Coordinator.EnqueueConserves | internal/fleet/coordinator.go:288-318 | a new waiter gets a fresh channel and is queued last on exactly one entry, the one that is there as it was or a new one under the given fetcher; no channel is lost |
| Coordinator.ClaimSelfConservesExactly | internal/fleet/coordinator.go:320-333 | overwriting the entry on a won election conserves waiters if and only if the entry had none |
| Coordinator.MessageConserves | internal/fleet/coordinator.go:777-859 | no peer message loses or double-closes a wait channel; what each one tells whom is in the rows of `WaiterOutcomes` |
| WaiterOutcomes.ReportReachesWaiters | internal/fleet/coordinator.go:818-859 | when the recorded fetcher reports, every waiter of the entry has received success after Fetched and failure after FetchFailed, and one close; every other channel and entry is as it was |
| WaiterOutcomes.AnnouncementRecorded | internal/fleet/coordinator.go:777-816 | an announced fetch is recorded under the announcing peer with its size and nonce unless an entry is there, and progress is taken from its fetcher only |
| WaiterOutcomes.StepTells | internal/fleet/coordinator.go:186-859 | a step tells a channel success exactly when it ends the entry the channel is queued on by a completion or by Fetched from the recorded fetcher, and failure exactly when it ends it otherwise |
| WaiterOutcomes.GrantedExactly | internal/fleet/coordinator.go:186-859 | in every run, with or without one request per package: a waiting request that receives is granted the LAN copy if and only if the entry of its package was ended by a completion here or by Fetched from the recorded fetcher, and must fetch itself if and only if it failed or was reaped |
| WaiterOutcomes.RequestStands | internal/fleet/coordinator.go:186-411 | where a request stands after it began, was offered a copy, gave up or copied |
| WaiterOutcomes.DownloadsAreRecorded | internal/fleet/coordinator.go:424-630 | with one active download per package, in every run, while a request downloads this node is recorded as fetcher of its package |
| WaiterOutcomes.RequestFinishes | internal/fleet/coordinator.go:186-532 | from every state every request can finish by its own steps, and leaves the others where they are |
| Coordinator.StepKeeps | internal/fleet/coordinator.go:186-859 | every step of requests, peers and reaper keeps the whole invariant under single flight |
| Coordinator.RunKeeps | internal/fleet/coordinator.go:186-859 | the same over every run |
| Coordinator.WaitersConserved | internal/fleet/coordinator.go:197-333 | with one active download per package no run aborts, loses or double-closes a channel, and when no request is active every channel handed out received exactly one outcome and one close |
| Coordinator.OverlappingRequestsStrandWaiter | internal/fleet/coordinator.go:320-333 | without that discipline a run strands a waiter |
| Coordinator.OnlyTheFetcherSpeaks | internal/fleet/coordinator.go:777-859 | through any run in which the recorded fetcher is silent about a package, its entry does not change |
| Coordinator.OwnEntrySurvives | internal/fleet/coordinator.go:605-859 | an entry this node owns survives every sequence of peer messages and reaper ticks |
| Coordinator.ReapExactly | internal/fleet/coordinator.go:605-630 | reaping drops exactly the listed entries and fails exactly their waiters, whatever the order of the table walk |
| Coordinator.FleetCoordinator.constructor | internal/fleet/coordinator.go:134-170 | a new node has no entries, no pending wants and no channels |
| Coordinator.WindowHoldsExactly | internal/fleet/coordinator.go:228-247 | from registration to retirement a claim window holds exactly what arrived about its package, channel by channel and in order; opening and closing it changes no other window |
| Coordinator.FleetCoordinator.ReleaseWaiters | internal/fleet/coordinator.go:479-512 | the release loop sends to and closes each listed channel once, in order |
| Coordinator.FleetCoordinator.EndEntry | internal/fleet/coordinator.go:479-532 | the entry goes and its waiters receive the outcome |
| Coordinator.FleetCoordinator.NotifyFetching | internal/fleet/coordinator.go:424-447 | the entry names this node with the announced nonce and size and the time, keeps its waiters, and no other entry changes |
| Coordinator.FleetCoordinator.NotifyProgress | internal/fleet/coordinator.go:469-477 | only offset and time of an existing entry change |
| Coordinator.FleetCoordinator.Decide | internal/fleet/coordinator.go:288-333 | the winner claims the entry, a loser gets a fresh channel queued on the winner's entry |
| Coordinator.FleetCoordinator.HandleMessage | internal/fleet/coordinator.go:745-859 | each peer message has the effect of the specification on the table (whose outcomes `ReportReachesWaiters` and `AnnouncementRecorded` state), only from the recorded fetcher; announced fetches, cached copies and refusals are routed to the claim window of their package and to no other |
| Coordinator.FleetCoordinator.AnswerFetching | internal/fleet/coordinator.go:672-682 | the second locked section answers exactly when this node fetches the package, with its size and announced nonce |
| Coordinator.FleetCoordinator.AnswerRacing | internal/fleet/coordinator.go:707-741 | the third routes the bid to the own window if it is open, and tells the own bid exactly then |
| Coordinator.FleetCoordinator.HandleWant | internal/fleet/coordinator.go:651-741 | a want is answered Have exactly when cached, Fetching exactly when this node fetches it, else DontHave carrying the own bid; a rival's bid is routed to the pending want and nothing else changes |
| Coordinator.FleetCoordinator.ReapStale | internal/fleet/coordinator.go:605-630 | the tick reaps exactly the entries of other nodes without an update for longer than the timeout |
| ChunkGrid.ChunkInFile | internal/downloader/downloader.go:332-347 | every chunk is a nonempty range inside the file |
| ChunkGrid.ChunkOf | internal/downloader/downloader.go:332-347 | every offset lies in a chunk |
| ChunkGrid.FullButTheLast | internal/downloader/downloader.go:332-347 | every chunk but the last has the full size, and the last one ends with the file |
| ChunkGrid.ChunksDisjoint | internal/downloader/downloader.go:332-347 | chunks do not overlap |
| ChunkGrid.GridCovers | internal/downloader/state.go:74-83 | the lengths of all chunks add up to the size |
| ChunkGrid.PatchOwnChunk | internal/downloader/downloader.go:424-446 | writing a chunk changes that chunk's bytes and no other's |
| ChunkGrid.ChunksDetermineFile | internal/downloader/downloader.go:483-512 | files that agree on every chunk are equal |
| ChunkGrid.ForeignRowExactly | internal/downloader/downloader.go:307-317 | writing a chunk of one grid makes the row of that number in another grid true, for every file and content, if and only if the chunk covers the row |
| ChunkGrid.InnerRowsNeedSameGrid | internal/downloader/downloader.go:455-459 | between the first and the last chunk it covers it only if the chunk sizes agree |
| ChunkedDownload.StepOk | internal/downloader/downloader.go:231-481 | every step of every worker and of the collector, whatever happened before, keeps each chunk in exactly one place and the byte counters equal to what was received |
| ChunkedDownload.NoChunkLost | internal/downloader/downloader.go:358-545 | in every run, wipes, torn writes and crashes included: when the result stream ends without a recorded error, every chunk was received or recovered and peer, mirror and recovered bytes add up to the size; whoever may send a result finds room; every result can be collected |
| ChunkedDownload.StepKeeps | internal/downloader/downloader.go:231-546 | after any step of any worker, the collector, a crash or a retry, completed rows are true if and only if the step is none of the three that betray them |
| ChunkedDownload.RunKeeps | internal/downloader/downloader.go:231-546 | the whole invariant over every run without a betraying step |
| ChunkedDownload.ResumeIsSafe | internal/downloader/downloader.go:307-460 | over any sequence of attempts, crashes and retries without one of the three betraying steps, every row marked completed has its bytes at its offsets and the byte total is that of the completed rows |
| ChunkedDownload.OnlyVerifiedFilesReturned | internal/downloader/downloader.go:483-512 | whatever sources, disk and crashes do, a returned file has the expected size and digest |
| Assembly.HonestStep | internal/downloader/downloader.go:231-546 | with honest sources, whatever was wiped, torn or left behind before, every step keeps what the attempt received right and what it recovered as right as it was |
| Assembly.FinishedExactly | internal/downloader/downloader.go:462-512 | a complete file is the content if and only if every recovered chunk was right |
| Assembly.AssembledExactly | internal/downloader/downloader.go:307-512 | given honest sources and nothing else, over whole histories: the file an attempt completes is the content if and only if every chunk it recovered when it began was right |
| Assembly.AssemblyCorrect | internal/downloader/downloader.go:307-512 | with honest sources and correctly resumed chunks, for every worker count, interleaving, retry pattern, crash, wipe, torn write and undeleted record, the digest check never fails, and as many files are returned as attempts end well, each of them the content |
| Assembly.FaithfulAssembly | internal/downloader/downloader.go:307-512 | with honest sources and no betraying step but a mismatch, every attempt resumes correctly, so the same holds |
| DownloadCompletes.AlwaysDelivers | internal/downloader/downloader.go:358-545 | whatever attempts and crashes came before and however workers and collector are interleaved, an attempt in which nothing has failed can be continued with honest sources until it returns the content |
| DownloadCompletes.ResumesWhereItStopped | internal/downloader/downloader.go:307-411 | a resumed attempt queues exactly the chunks without a completed row; without resumption, record or file of the right size it queues all; never more workers than chunks |
| DownloadCompletes.ThreeTries | internal/downloader/downloader.go:558-618 | a worker reports the first of three replies of the right length, with its source, or a failure when there is none |
| DownloadCompletes.BytesBySource | internal/downloader/downloader.go:424-460 | from its beginning an attempt has counted exactly the bytes it wrote, those from peers and those from mirrors apart |
| DownloadCompletes.FailureCancels | internal/downloader/downloader.go:424-460 | in every run an attempt that saw a failure is cancelled, and one without resumption records no chunk |
| DownloadCompletes.CancelledStartsNothing | internal/downloader/downloader.go:558-567 | once cancelled, an attempt starts no further chunk, whatever follows |
| DownloadCompletes.RecordFlags | internal/downloader/downloader.go:387-545 | what each step writes about the download: failed exactly by a failed attempt that records, retries only by a retry, completed rows only by a saved chunk |
| Betrayals.HonestDownloadFails | internal/downloader/downloader.go:307-317 | a run with honest sources whose digest check fails, because a success left its record and a crash followed |
| Betrayals.FirstBetrayal | internal/downloader/downloader.go:307-512 | rows are true up to the first betraying step of a run and false after it |
| Betrayals.WipeBetrays | internal/downloader/downloader.go:498-512 | a run whose digest mismatch leaves a completed row without bytes |
| Betrayals.UndeletedRecordBetrays | internal/downloader/downloader.go:514-523 | a run whose success leaves a completed row without bytes, because the record could not be deleted |
| Betrayals.TornWriteBetrays | internal/downloader/downloader.go:437-443 | a run in which an attempt with resumption off tears a completed chunk, for all data and junk |
| DownloadState.SumIsBytes | internal/downloader/state.go:199-213 | the SQL total over completed rows is the length of the completed part of the grid |
| DownloadState.PlanRows | internal/downloader/state.go:74-83 | the inserted rows are the grid, all pending |
| DownloadState.SumRows | internal/downloader/state.go:199-213 | the total computed row by row |
| DownloadState.CompleteRow | internal/downloader/state.go:185-221 | completing a row keeps rows and total in step and is what the download machine calls marking |
| DownloadState.ResetRows | internal/downloader/state.go:342-377 | rows that are not completed go back to pending, completed ones stay |
| DownloadState.StateManager.constructor | internal/downloader/state.go:41-43 | empty tables are sound |
| DownloadState.StateManager.CreateDownload | internal/downloader/state.go:46-86 | a new record with the grid's rows; fails without effect when the download exists or the transaction does |
| DownloadState.StateManager.UpdateChunk | internal/downloader/state.go:185-221 | refines the machine's marking of a chunk: that row is completed, the total recomputed, nothing else changed; unknown downloads and chunks, and failed transactions, change nothing |
| DownloadState.StateManager.UpdateDownloadStatus | internal/downloader/state.go:177-238 | only the status of the named download changes |
| DownloadState.StateManager.MarkForRetry | internal/downloader/state.go:342-377 | succeeds exactly on failed downloads, which become pending with one retry more; completed chunks stay completed, all others become pending |
| DownloadState.StateManager.DeleteDownload | internal/downloader/state.go:240-258 | the record and its chunk rows go together |
| Downloader.PlanChunks | internal/downloader/downloader.go:332-347 | the chunks to fetch are exactly the missing ones, in ascending order, with the grid's offsets |
| Downloader.FetchChunk | internal/downloader/downloader.go:558-618 | the first of three replies of the right length, or an error exactly when there is none |
| Downloader.WriteAt | internal/downloader/downloader.go:424-446 | overwrites in place and nothing else |
| Downloader.CollectResults | internal/downloader/downloader.go:424-460 | the file becomes the assembled one, failed writes included; received marks exactly the chunks stored; failure and cancellation exactly when an error or a failed write was seen |
| Downloader.AssembledSlices | internal/downloader/downloader.go:424-460 | each chunk of the assembled file is what was written for it, or what was there before |
| Downloader.OutOfOrderArrival | internal/downloader/downloader.go:424-460 | the file does not depend on the order of arrival |
| Downloader.Race | internal/downloader/downloader.go:622-736 | the first arrival with the expected digest wins; none wins exactly when no arrival has it |
| PackageCache.CommitBudget | internal/cache/cache.go:597-663 | a successful store is within budget, and no store exceeds the larger of old size and budget |
| PackageCache.CommitBooks | internal/cache/cache.go:597-663 | known before the call: whether the store succeeds, and that the counter then equals the sum of the rows if and only if it does not replace a surviving row it cannot read; else it is too high by that row's size |
| PackageCache.UnreadableRowMiscounts | internal/cache/cache.go:623-655 | a store that leaves 4 bytes stored and 8 on the books |
| PackageCache.EvictRows | internal/cache/cache.go:893-959 | exactly the victims lose their rows, and each was removable |
| PackageCache.EvictFiles | internal/cache/cache.go:677-716 | no file outside the candidates, and none with an open reader, is removed |
| PackageCache.EvictInOrder | internal/cache/cache.go:911-959 | victims follow nondecreasing score, which `RankedByColdness` and `ColdestGoFirst` state in plain numbers |
| PackageCache.EvictStops | internal/cache/cache.go:911-959 | eviction stops as soon as the item fits and gives up only after taking every candidate it could |
| PackageCache.EvictionGuarantee | internal/cache/cache.go:893-959 | victims are unpinned, last read more than 604800 seconds ago counting unflushed accesses, unread and in score order; "full" only when removing everything removable of that kind would not help |
| PackageCache.ColdestGoFirst | internal/cache/cache.go:911-959 | when one package is taken and another that could go is spared: with equal counts the taken one was read no later, with equal last reads no more often, and in general each access more weighs 86400 seconds |
| PackageCache.RankedByColdness | internal/cache/cache.go:911-925 | of two candidates the earlier one is the colder by that measure |
| PackageCache.StoredExactly | internal/cache/cache.go:597-663 | known before the call, for every package: the row a successful store leaves (size, name, time, one access more unless the old row fell, pinned as before), and which other rows stay, unchanged |
| PackageCache.PinnedStays | internal/cache/cache.go:1312-1332 | once pinned, a package keeps row and file through every run that neither unpins nor removes it |
| PackageCache.FlushExactly | internal/cache/cache.go:479-516 | a flush brings each row to the later of its own and the waiting time, adds the waiting accesses and changes nothing else |
| PackageCache.GetRefines | internal/cache/cache.go:423-476 | a hit with a batched access record equals, once flushed, a hit that updates recency and count at once |
| PackageCache.StepRefines | internal/cache/cache.go:423-716 | every operation commutes with folding in the waiting access records |
| PackageCache.BatchingRefines | internal/cache/cache.go:423-516 | over every run the batched cache refines the synchronous one, eviction decisions included |
| PackageCache.ReadersProtected | internal/cache/cache.go:677-716 | no store, eviction or removal takes a file with an open reader |
| PackageCache.StepKeeps | internal/cache/cache.go:403-716 | every operation, failing look-ups included, keeps reader counts, open files, content addressing and the budget |
| PackageCache.StepBooks | internal/cache/cache.go:403-716 | an operation keeps the counter equal to the sum of the rows if and only if it is not a miscounting store |
| PackageCache.CacheRun | internal/cache/cache.go:403-716 | over every run reader counts equal the open readers, whose files are there, every file hashes to its key, and the size is never above the larger of its start and the budget |
| PackageCache.BooksRun | internal/cache/cache.go:597-716 | over every run without a miscounting store the counter equals the sum of the rows |
| PackageCache.PutThenGet | internal/cache/cache.go:597-663 | after a successful store the next read of that package succeeds |
| PackageCache.Cache.constructor | internal/cache/cache.go:94-157 | an empty cache |
| PackageCache.Cache.GetPackage | internal/cache/cache.go:423-476 | a hit opens a reader and records the access; a miss changes nothing |
| PackageCache.Cache.CloseReader | internal/cache/cache.go:407-416 | one reader fewer of that package |
| PackageCache.TrackedReader.constructor | internal/cache/cache.go:464 | a new reader is open |
| PackageCache.TrackedReader.Close | internal/cache/cache.go:403-418 | the first close gives back exactly one reader, any further one nothing |
| PackageCache.Cache.FlushAccess | internal/cache/cache.go:479-516 | the waiting records are folded into their rows, record by record |
| PackageCache.Cache.DeleteUnlocked | internal/cache/cache.go:677-716 | with a known size: the file goes before the row, and a file that cannot go keeps its row and its bytes on the books |
| PackageCache.Cache.DeletePackage | internal/cache/cache.go:666-716 | on request: a package in use or whose size cannot be looked up stays, with everything else; a success takes its row and its file and no other |
| PackageCache.Cache.MakeRoom | internal/cache/cache.go:893-959 | flushes, then evicts in score order until the item fits; without a list of candidates nothing goes; reports exactly whether it fits and why not |
| PackageCache.Cache.CommitVerifiedFile | internal/cache/cache.go:597-663 | a store, with every failure path of the specification |
| PackageCache.Cache.PutPackage | internal/cache/cache.go:539-586 | data with another digest is refused without effect |
| Eviction.VictimsExactly | internal/cache/cache.go:924-944 | the walk along the candidates removes one if and only if it is removable and the item still does not fit after every better victim |
| Eviction.EarlierFalls | internal/cache/cache.go:924-944 | nobody falls before somebody who stands earlier in the list and could be removed as well |
| Eviction.RoomExactly | internal/cache/cache.go:924-954 | the walk makes enough room if and only if removing every removable candidate would |
| MetadataCache.EvictVictims | internal/cache/metadata.go:421-471 | making room removes exactly the victims of that walk, and the counter follows |
| MetadataCache.OldestGoFirst | internal/cache/metadata.go:421-471 | when one entry is taken and another that could go is spared, the taken one was used no later, and no more often if last used at the same time |
| MetadataCache.CommitBooks | internal/cache/metadata.go:326-410 | known before the call: whether the store succeeds, and that the counter then equals the sum of the rows if and only if the replaced entry does not fall victim to making room (or, with a failing look-up, does); else it is off by that entry's size; a successful store is within budget |
| MetadataCache.StoredExactly | internal/cache/metadata.go:326-410 | known before the call: the row a successful store leaves, and which other rows stay, unchanged |
| MetadataCache.FailureReasons | internal/cache/metadata.go:326-410 | known before the call: when a store is refused as disabled, as too large or for lack of room, and when it fails |
| MetadataCache.WithinBudgetMiscounts | internal/cache/metadata.go:326-410 | from within the budget, evicting the replaced entry miscounts without exception |
| MetadataCache.ReplacedVictimOverrunsBudget | internal/cache/metadata.go:326-410 | for any two URLs, a store that leaves 11 bytes stored under a budget of 10 with a counter of 7 |
| MetadataCache.FailedCommitExactly | internal/cache/metadata.go:323-410 | known before the call: a failing store leaves row and file of the previous copy as they were if and only if the walk for room does not take the file and no rename or insert fails after its removal |
| MetadataCache.FailedRenameLosesCopy | internal/cache/metadata.go:371-380 | every store that fits and fails to rename loses the file and keeps the row |
| MetadataCache.StepBooks | internal/cache/metadata.go:216-487 | a step keeps the counter equal to the sum of the rows if and only if it is not a miscounting store; no step breaks the budget |
| MetadataCache.MetadataRun | internal/cache/metadata.go:216-487 | over every run without a miscounting store the counter is the sum of the rows and within the budget |
| MetadataCache.TouchExactly | internal/cache/metadata.go:214-221 | a hit sets the time and counts one access of its entry, and changes nothing else |
| MetadataCache.Metadata.constructor | internal/cache/metadata.go:36-42 | an empty cache with a budget |
| MetadataCache.Metadata.DeleteUnlocked | internal/cache/metadata.go:474-487 | file before row, as in the package cache |
| MetadataCache.Metadata.EnsureSpace | internal/cache/metadata.go:421-471 | evicts oldest first until the entry fits, nothing without a list of candidates, and reports exactly whether it fits |
| MetadataCache.Metadata.CommitEntry | internal/cache/metadata.go:326-410 | content that has another digest than its URL names is refused without effect; else a store, with every failure path of the specification |
| MetadataCache.Metadata.DropMissing | internal/cache/metadata.go:244-256 | an entry without a file loses its row, and its bytes as far as the counter has them; if it cannot be looked up or deleted nothing changes |
| PackageIndex.ClearedCoherent | internal/index/index.go:581-621 | clearing a file removes its generation from all four maps and keeps the index coherent |
| PackageIndex.InsertCoherent | internal/index/index.go:292-310 | indexing an item keeps the index coherent with the generation under construction |
| PackageIndex.LoadCoherent | internal/index/index.go:262-372 | a parse replaces exactly its own file's generation, one entry per item, and leaves every other generation as it was |
| PackageIndex.LiveFilesAreFound | internal/index/index.go:396-414 | every live file name is found by its path, and what is found is live and has that path or basename |
| PackageIndex.IndexRun | internal/index/index.go:262-372 | after any sequence of parses everything reachable is in a current generation, each basename lists exactly the live entries, and each file holds exactly its last parse |
| PackageIndex.ListedOnce | internal/index/index.go:289-351 | after any sequence of parses a live entry is listed under its basename once, or twice exactly when it is the last one of a file whose parse stopped at the limit |
| PackageIndex.BaseExactly | internal/index/index.go:296 | the basename of a path is what follows its last slash, one at the very end not counting |
| IndexHistory.LookupsExactly | internal/index/index.go:262-394 | after any sequence of parses a digest, or a path of a repository, is present if and only if the entry indexed under it last of all is still live, and then leads to that entry |
| IndexHistory.SharedDigestVanishes | internal/index/index.go:581-621 | for any two files and item: listed by both and then dropped by the second, its digest is gone although the first still lists it |
| Stanzas.Colon | internal/index/index.go:321-327 | the position is that of the first colon |
| Stanzas.EndedThenOneMore | internal/index/index.go:284-357 | the stanzas ended by blank lines are a prefix of all, short of at most the last |
| Stanzas.PackagesConcat | internal/index/index.go:284-357 | a blank line is a full stop: what follows is read as if it stood alone |
| Stanzas.AgainMeansFull | internal/index/index.go:300-305 | the limit stops a parse only after it took as many items as it allows |
| Stanzas.LimitListsTwice | internal/index/index.go:300-357 | for every digest and file name, a file of 500,000 such stanzas leaves its last entry twice under its basename |
| Stanzas.SourcesConcat | internal/index/sources.go:178-228 | the same for `Sources` files |
| Stanzas.FieldRead | internal/index/index.go:320-343 | a line of one of the six fields sets that field to its value without the white space around it, and no other; a size outside 64 bits or no number is passed over |
| StanzaFiles.PackagesRoundTrip | internal/index/index.go:284-357 | for every list of packages, the `Packages` file written from it is read as exactly that list: name, version, architecture, path, size and digest |
| StanzaFiles.SourceReadsBack | internal/index/sources.go:100-218 | for all names, directories, sizes and digests of 64 digits, a source stanza is read as exactly one item per listed artifact, in order: path directory, slash, name; the digest listed, in lower case; the size, as far as 64 bits go; without a directory as nothing |
| StanzaFiles.SourceAnywhere | internal/index/sources.go:178-187 | wherever a source stanza stands between blank lines, it is read as if it stood alone |
| StanzaFiles.OtherEntryIgnored | internal/index/sources.go:190-197 | an indented line that does not begin with 64 hexadecimal digits, or lacks size and name, lists nothing |
| StanzaFiles.OtherBlockIgnored | internal/index/sources.go:198-217 | what is indented below a field of another name lists nothing |
| StanzaFiles.ParsedFound | internal/index/index.go:262-372 | after any parse, of whatever index before, each path and each digest of the file leads to the last item that has it |
| StanzaFiles.PackageFound | internal/index/index.go:262-372 | after a written `Packages` file was parsed, an item is found by path and digest with every field it was written with |
| StanzaFiles.SourceFound | internal/index/sources.go:109-238 | after a source stanza was parsed, its artifact is found in the repository under directory, slash, name, with its digest and size |
| StanzaFiles.TrimSpaceExactly | internal/index/index.go:327 | trimming takes white space from both ends and nothing else |
| StanzaFiles.TrimSlashesExactly | internal/index/sources.go:213 | a directory loses the slashes at its end and nothing else |
| IndexStore.FilterOut | internal/index/index.go:606-612 | the filter loop keeps exactly the entries not in the old generation, in order |
| IndexStore.ClearedAtLast | internal/index/index.go:581-621 | handling the old generation entry by entry ends in the cleared index |
| IndexStore.IndexManager.constructor | internal/index/index.go:75-86 | an empty index |
| IndexStore.IndexManager.RemoveEntry | internal/index/index.go:591-619 | an entry leaves each map only if the map still holds that very entry |
| IndexStore.IndexManager.ClearIndexFile | internal/index/index.go:581-621 | the loop over the old generation computes the cleared index |
| IndexStore.IndexManager.IndexEntry | internal/index/index.go:292-299 | an entry is put under its digest, path and basename |
| IndexStore.IndexManager.ReadStanzas | internal/index/index.go:284-343 | the line loop indexes exactly the stanzas ended so far and stops at the limit |
| IndexStore.IndexManager.LastStanza | internal/index/index.go:345-357 | the stanza at hand is indexed last; after the limit that is the last entry over again |
| IndexStore.IndexManager.EndSource | internal/index/sources.go:133-173 | the artifacts of a source stanza are indexed, as far as the limit allows |
| IndexStore.IndexManager.ReadSources | internal/index/sources.go:175-228 | the line loop indexes exactly the artifacts of the file, up to the limit |
| IndexStore.IndexManager.ParsePackages | internal/index/index.go:262-372 | parsing a `Packages` file is one load of the specification; `PackageFound` says what is found after it |
| IndexStore.IndexManager.ParseSources | internal/index/sources.go:109-238 | parsing a `Sources` file is one load of the specification; `SourceFound` says what is found after it |
| IndexStore.IndexManager.GetByPath | internal/index/index.go:396-414 | an exact match of some repository, else the first entry of the basename |
| IndexStore.IndexManager.GetByBasename | internal/index/index.go:447-463 | an entry of the preferred repository if there is one, else the first |
| Windows.ContainsExactly | internal/scheduler/window.go:116-143 | at every instant the minute test equals membership in an interval opened on some configured day, midnight or not |
| Windows.NextStart | internal/scheduler/window.go:147-186 | the least opening strictly after the given instant; the eight-day loop always finds it, and finds none exactly without days |
| Windows.IsInWindow | internal/scheduler/scheduler.go:81-93 | true exactly when some window is open, or there are none |
| Windows.CurrentRate | internal/scheduler/scheduler.go:98-112 | an exempt urgent request has no limit; any other gets the inside rate if there are no windows or one is open, and the outside rate if there are windows and none is open |
| Windows.NextWindowStart | internal/scheduler/scheduler.go:116-137 | the earliest opening over all windows after the first reading of the clock, nothing when inside a window at the second |
| Windows.OutsideUntilNext | internal/scheduler/scheduler.go:98-137 | outside all windows at the second reading, the scheduler stays outside before the announced opening, for good if none is announced, and every request that is not exempt gets the outside rate |
| Windows.OpensWhenAnnounced | internal/scheduler/scheduler.go:116-137 | at the announced instant the scheduler is inside if and only if a window opening then is not empty |
| Windows.EmptyOnlyAtMidnight | internal/scheduler/window.go:85-89 | only 00:00 to 00:00 is empty; other equal times mean a whole day |
| Windows.MidnightWindowNeverOpens | internal/scheduler/window.go:85-89 | such a window is announced and never open |
| Windows.WeekdaysGoRound | internal/scheduler/window.go:116-143 | the day of the week of every day, counted from a Thursday |
| FleetCodec.DecodeEncode | internal/fleet/messages.go:93-167 | a frame followed by anything reads back as its message with the rest untouched, exactly when the digest fits the reader |
| FleetCodec.FrameParts | internal/fleet/messages.go:93-128 | the layout of a frame: kind, nonce, length of the digest, digest, size, offset |
| BigEndian.MostSignificantFirst | internal/fleet/messages.go:93-128 | numbers are written most significant byte first |
| FleetCodec.EncodeDecode | internal/fleet/messages.go:131-167 | only the frame of a message reads as that message |
| FleetCodec.CutFrameUnread | internal/fleet/messages.go:131-167 | no proper prefix of a frame reads as a message |
| FleetCodec.StreamReceived | internal/fleet/protocol.go:88-111 | however much of a stream arrives, the receiver gets exactly the messages that arrived whole, in order |
| FleetCodec.StreamIsItsMessages | internal/fleet/protocol.go:88-111 | any stream is the frames of the messages received from it, followed by what is left over |
| FleetCodec.WholeStream | internal/fleet/messages.go:93-167 | decoding the concatenated frames gives back exactly the list if and only if every digest fits the reader, and then nothing is left over |
| FleetCodec.HandleStream | internal/fleet/protocol.go:88-111 | the receiving loop hands on exactly the decodable messages |
| Transport.RangeRoundTrip | internal/p2p/node.go:832-863 | a request is read back by length, newline bytes among the offsets included |
| Transport.RangeLayout | internal/p2p/node.go:823-845 | the layout of a request: 64 bytes of digest, start, end, newline |
| Transport.AnswerReadsBack | internal/p2p/node.go:1164-1223 | the clipped answer is read as exactly the clipped part, a refusal as nothing |
| Transport.DigestIsKey | internal/p2p/node.go:1110-1149 | a digest of 64 hexadecimal digits is looked up as itself in both protocols |
| Transport.PeerDownloadExactly | internal/p2p/node.go:867-1034 | for every request string and every pair of offsets, in either protocol, the client gets exactly that part of what the peer holds under the key, or nothing when malformed, empty, too long or missing |
| Transport.LongLineRefused | internal/p2p/node.go:1105-1134 | a request line that does not end within 256 bytes is answered by nothing |
| Transport.MirrorRangeExactly | internal/mirror/fetcher.go:390-504 | mirrors with and without range support deliver exactly the range |
| Transport.OverlongAnswerShows | internal/mirror/fetcher.go:446-463 | a partial answer longer than the range arrives one byte too long, so no chunk accepts it |
| Transport.MirrorFullExactly | internal/mirror/fetcher.go:175-238 | a whole file arrives exactly when it is within the limit |
| Transport.OpenRangeExactly | internal/mirror/fetcher.go:446-504 | an open range arrives whole exactly when it is within the limit, one byte more on a partial answer |
| Transport.SourcesAgree | internal/proxy/server.go:1346-1360 | for every chunk of the grid peer, ranged mirror and plain mirror deliver the same slice, as the downloader expects of an honest source |

## Left out

- Time, goroutines and locks: each locked section is one step, clocks are parameters. `AlwaysCompletes`, `AlwaysDelivers` and `RequestFinishes` say that a run can be brought to its end, not that a scheduler will.
- The fleet machine may deliver a sent message again; where delivery is once only, a report received before the wait began is not delivered again (`EarlyReportIsMissed`).
- Coordinator.FleetCoordinator.HandleWant: takes its three locked sections as one step; `FleetElection` separates them.
- The channels of a claim window are unbounded queues here; a send that blocks until the window closes is not modelled.
- A WAN download that fails, and the report of it, is not part of the fleet-wide machine; `Coordinator` covers it for one node.
- The overlap that `ElectionTheorem` asks for is a condition on runs, not something the code enforces.
- A crash is a crash of the process: what was written is on disk. Power loss and reordering of writes are not modelled.
- A chunk size that changes between attempts is not part of the download machine; `ChunkGrid` says exactly which rows it leaves true.
- Choosing the best source (`selectBest`), peer scores, adaptive timeouts and rate limiters: the model lets any source answer.
- `CleanupStale`, `ClearRepo`, `SweepStalePartials`, database recovery, and the queries that only list or count.
- A listing of eviction candidates that breaks off half way is not modelled; one that fails is.
- An access flush either happens or does not; a flush whose transaction fails half way is not modelled, and neither is a scan error in the middle of an index file.
- SQLite, SHA-256, GPG and decompression: tables are maps, the digest is any function, index files are decompressed lines.
- White space beyond Latin-1, URL parsing (`GetByURLPath`, `indexFileKey`) and the text form of window days and times.
- Days of 23 or 25 hours: every day has 24.
- libp2p, relayed connections, deadlines, HTTP retries and stall detection, HTTP handlers, dashboard, metrics and command line.
