# Nchan, verified in Dafny

A Dafny 4.11 model of the parts of Nchan where correctness is hardest to see, with proofs. Run
`dafny verify dfyconfig.toml` to check all of it.

- **Subscriber spools** (`src/store/spool.c`). `Spooler` is a step system: subscribers join and leave,
  messages are published, and the store answers requests late, in any order, and with EXPECTED replies
  that may be out of date. `SpoolerProofs` and `SpoolerLive` prove what every run keeps: nobody is sent a
  message twice, out of order or past a gap. `SpoolerPresence` says who is in a spool after any run: those
  who joined and have not gone, and nobody else. `ChannelSpooler` is the code as it runs, one spool at a
  time, with each entry point proved to make exactly one step. It works on the memory of `SpoolStore`:
  `SpoolMemory`, `SpoolWalk` and `SpoolNodes` are the nodes, links, counters and callback data of the
  subscriber lists, `SpoolDirectory` is the way from message ids to spools. `SpoolTree` and
  `SpoolCollector` are the id order, the pruned tree walk and the overflow stack; `SpoolerStall` is about
  the runs that lose a message; `FetchDeferral` is the recursion guard with a store that answers at once.
- **The hash table** (`src/uthash.h`). `HashTable` keeps element order, bucket chains, counts and Bloom
  filter in step by relinking; `HashBuckets` says what that means for the chains; `HashBound` is the
  arithmetic that bounds the load; `HashSort` is the in-place mergesort of the element order. `Links` is
  about linked lists in memory, here and in the spools.
- **The reader/writer lock** (`src/store/ngx_rwlock.c`). `RwLock` interleaves the atomic steps of any
  number of processes.
- **Cluster slots** (`dev/redis-trib.rb`). `SlotAllocation`, `NodeInterleaving` and `ReplicaAssignment`
  are the parts of cluster creation and `ClusterCreation` is the whole; `Reshard`, `BalanceCorrection` and
  `Rebalance` move slots between masters. `Ordering` holds sums and sorting.
- **Stream encoders** (`src/subscribers`). `EventSource`, `Chunked` and `LongPoll` write what their
  readers, written from the public standards, are proved to read back. `EventStream` and `Multipart` are
  two of the readers; `Buffers` is the output chain.

Six promises turned out to be false of the code, and are stated with the exact condition under which
they hold:

- *No loss.* An EXPECTED reply that a publish has overtaken can mark a spool behind the log as up to date.
  A subscriber that is there, or joins there, is not served again. `SpoolerStall.NoLossIff` says that a
  run never gets to where somebody can be lost exactly when none of its replies is of that kind;
  `SpoolerStall.OvertakenLoses` turns each such reply into a lost subscriber, and
  `SpoolerStall.StallReachable` is a concrete run. Without such replies nothing is lost
  (`SpoolerPresence.NoLoss`).
- *Rebalancing ends.* The correction for rounding loops for ever exactly when slots are left over and no
  master is to receive any (`BalanceCorrection.CorrectionEndsIff`); an even cluster of three masters does
  that (`Rebalance.EvenClusterLoops`).
- *All nodes will be used* as replicas, as a comment in the source says: exactly when the remainder does
  not exceed the number of masters (`ReplicaAssignment.AssignNodes`, `ReplicaAssignment.OneLeftOver`).
- *What is published is received* by an EventSource reader: exactly when no data holds a carriage
  return, no id a line break or NUL and no event name a line break (`EventSource.RoundTripIff`).
- *Chunks come out as they went in*: exactly when every message is shorter than 16^13 bytes, since the
  size line is cut off otherwise (`Chunked.RoundTripIff`).
- *The tree of spools is in the order of their ids*: among ids of different times exactly when the low 32
  bits of the times are (`SpoolTree.TreeOrderIff`); a walk can miss a spool otherwise
  (`SpoolTree.WrappedMissed`).

## Model

| member | source | states |
|---|---|---|
| SpoolerLive.NoRepeatNoSkip | README.md:14 | in every run, with late and stale replies, what a subscriber has received is an unbroken stretch of the log from its join point; it waits in at most one spool, the one it has caught up to |
| SpoolerLive.NoStallIff | src/store/spool.c:304-366 | every spool behind the log that counts as fetched has, at all times of a run, a request outstanding that must answer FOUND, if and only if no overtaken EXPECTED reply lands on an unfetched spool behind the log |
| SpoolerPresence.NoLoss | README.md:14 | in a run without such replies, once all requests are answered every subscriber that joined at any point and that nothing made go is in a spool and has every message after the id it asked for, or published since it asked for the newest |
| SpoolerPresence.PresenceIff | src/store/spool.c:496-739 | after any run a subscriber is in a spool if and only if it was there or joined and has not quit since |
| SpoolerPresence.StepPresence | src/store/spool.c:222-366 | every step adds exactly the subscriber that joins and takes away exactly those that leave, or that go upon the answer they are given; all others stay, whatever becomes of their spool |
| SpoolerPresence.StillThere | src/store/spool.c:496-739 | a subscriber that no event names as leaving is in a spool at the end of the run |
| SpoolerPresence.GoneForGood | src/store/spool.c:496-509 | who has gone is in no spool ever after |
| SpoolerPresence.PublishGoesServed | src/store/spool.c:928-973 | who goes upon a published message has received it and all before it |
| SpoolerPresence.FoundGoesServed | src/store/spool.c:343-351 | so has who goes upon the message of a FOUND reply |
| SpoolerLive.WaitingUpToDate | README.md:14 | in a run without such replies, once all requests are answered every subscriber in a spool has everything after the id it joined at |
| SpoolerLive.RepliesEnd | src/store/spool.c:304-366 | answering requests, in any order and counting the further requests this causes, comes to an end within a number of replies fixed by the log and the open requests |
| SpoolerLive.ReplyWork | src/store/spool.c:304-366 | every single reply lowers that number |
| SpoolerLive.SomeReply | src/store/spool.c:433-494 | an open request can always be answered one way or the other |
| SpoolerLive.RunLiveIff | src/store/spool.c:304-366 | from any safe and live state, the same equivalence over the rest of the run |
| SpoolerLive.StepLiveIff | src/store/spool.c:222-366 | of all steps only an overtaken EXPECTED reply can leave a spool behind the log unattended, and each such reply does |
| SpoolerLive.ReplyExpectedLiveIff | src/store/spool.c:353-366 | an EXPECTED reply keeps every spool behind the log attended if and only if it is not overtaken |
| SpoolerLive.ReplyFoundLive | src/store/spool.c:343-351 | a FOUND reply keeps every spool behind the log attended |
| SpoolerLive.PublishLive | src/store/spool.c:928-973 | so does a publish |
| SpoolerLive.JoinLive | src/store/spool.c:672-739 | so does a subscriber joining |
| SpoolerLive.LandLive | src/store/spool.c:259-298 | so do subscribers moving on to another spool |
| SpoolerLive.FreshNoStall | src/store/spool.c:353-366 | in a run whose EXPECTED replies are all still true when they arrive, every spool behind the log stays attended |
| SpoolerStall.StallReachable | src/store/spool.c:304-366 | a concrete run from an empty spooler that leaves subscriber 2 waiting for a message that has been published |
| SpoolerStall.StuckForEver | src/store/spool.c:703-730 | whatever happens afterwards, a subscriber stuck like that receives nothing more |
| SpoolerStall.NoLossIff | src/store/spool.c:304-366 | for every run: at no point of it can a subscriber end up stuck for ever without a further overtaken reply, if and only if none of its EXPECTED replies was overtaken |
| SpoolerStall.StepDoomedIff | src/store/spool.c:222-366 | of all steps from a safe and live state exactly the overtaken EXPECTED replies lead to where somebody can be lost |
| SpoolerStall.OvertakenLoses | src/store/spool.c:353-366 | after any overtaken reply, whatever other requests are open, there is a continuation without another one that leaves any newcomer stuck at that id |
| SpoolerStall.JoinStuck | src/store/spool.c:703-730 | a subscriber that joins a spool behind the log which takes itself to be up to date, with no request open for it, is stuck |
| SpoolerProofs.ReachableSafe | src/store/spool.c:222-302 | in every reachable state deliveries are gapless, no subscriber is in two spools, a spool with subscribers is never unfetched, and statuses are INVALID, PENDING or EXPECTED |
| SpoolerProofs.StepSafe | src/store/spool.c:222-302 | every step keeps that |
| SpoolerProofs.RunSafe | src/store/spool.c:222-302 | every run keeps that |
| SpoolerProofs.PublishSafe | src/store/spool.c:928-973 | a publish keeps that: the message goes exactly to those it is next for |
| SpoolerProofs.ReplyFoundSafe | src/store/spool.c:343-351 | a FOUND reply, however late, keeps that |
| SpoolerProofs.ReplyExpectedSafe | src/store/spool.c:353-366 | an EXPECTED reply, however stale, keeps that |
| SpoolerProofs.JoinSafe | src/store/spool.c:672-739 | a subscriber joining at any id, or failing to, keeps that |
| SpoolerProofs.LeaveSafe | src/store/spool.c:496-509 | a subscriber leaving keeps that |
| SpoolerProofs.LandSafe | src/store/spool.c:259-298 | subscribers merged into another spool, or into a re-keyed one, keep that |
| SpoolerProofs.RunAppend | src/store/spool.c:222-302 | runs compose: a run followed by a step is a run |
| ChannelSpooler.ChannelSpooler.constructor | src/store/spool.c:1152-1190 | a new spooler has no spools but the immortal one and no requests |
| ChannelSpooler.ChannelSpooler.AddSubscriber | src/store/spool.c:672-739 | makes exactly the join step, for success, failed enqueue and every status of the spool, and keeps the memory in order |
| ChannelSpooler.ChannelSpooler.Dequeue | src/store/spool.c:496-509 | makes exactly the leave step, finding node and spool through the callback data, and keeps the memory in order |
| ChannelSpooler.ChannelSpooler.FetchMsgCallback | src/store/spool.c:304-366 | makes exactly the reply step, FOUND or EXPECTED, also when the spool is gone, and keeps the memory in order; so the subscribers that do not leave are still in a spool (`SpoolerPresence.StepPresence`) |
| ChannelSpooler.ChannelSpooler.RespondMessage | src/store/spool.c:928-973 | over any shape of the search tree in the order the tree is kept in: exactly the spools the walk takes are handed the message, spool by spool, then the immortal spool, and the memory stays in order; with times below 2^32 this is exactly the publish step |
| ChannelSpooler.TakenInRange | src/store/spool.c:861-912 | with times below 2^32 the walk takes exactly the spools the message is next for |
| ChannelSpooler.ChannelSpooler.FetchMsg | src/store/spool.c:433-494 | starts from INVALID only, without a message, and leaves the spool PENDING with one more request |
| ChannelSpooler.ChannelSpooler.HandOver | src/store/spool.c:222-302 | a spool hands its message over along its links and is merged and destroyed, or re-keyed: the same state as one landing |
| ChannelSpooler.ChannelSpooler.MoveSpool | src/store/spool.c:248-281 | its subscribers are at the new id, whether the spool was merged into the one there or re-keyed, and nobody else has moved |
| ChannelSpooler.PartlyStep | src/store/spool.c:952-964 | handing over one collected spool extends the partly done publish by that spool |
| ChannelSpooler.PartlyDone | src/store/spool.c:945-970 | collected spools one after the other and the immortal spool last amount to the whole publish step |
| ChannelSpooler.LandTwice | src/store/spool.c:259-298 | arriving at a spool in two batches amounts to arriving at once |
| SpoolTree.Compare | src/store/spool.c:1031-1065 | -1, 1 and 0 exactly when the first id is below, above or the same, by time and then by tags padded with -1 |
| SpoolTree.BelowTransitive | src/store/spool.c:1031-1065 | that order is transitive |
| SpoolTree.SamePaddedBelow | src/store/spool.c:1031-1065 | ids that compare equal are interchangeable in it |
| SpoolTree.OneTagBelow | src/store/spool.c:1031-1065 | with one tag it is the order by time and tag |
| SpoolTree.TreeOrder | src/store/spool.c:1026-1065 | bucket by time, then comparison: the tree is in the order of the ids for times of 32 unsigned bits |
| SpoolTree.TreeOrderBreaks | src/store/spool.c:1026-1029 | the special time -2 comes first by comparison and last in the tree |
| SpoolTree.WalkExact | src/util/nchan_rbtree.c:323-346 | on any ordered tree and with any sound pruning, the walk visits exactly the nodes to take, each once |
| SpoolTree.OneTagSound | src/store/spool.c:787-807 | the one-tag range test takes the ids in [min, max) and prunes none of them |
| SpoolTree.MultiTagSound | src/store/spool.c:872-905 | the multi-tag range test takes the ids in [min, max) by time and the given tag comparison, and prunes none of them |
| SpoolTree.MultiCollected | src/store/spool.c:861-912 | on any tree in the order it is kept in, with times of 32 bits and a comparison that orders tags, the multi-tag walk collects exactly the ids not below min and below max, each once |
| SpoolTree.FiledInOrder | src/store/spool.c:1026-1065 | a tree of one-tag ids with times of 32 bits, kept by bucket and comparison, is in the order of the ids |
| SpoolTree.TreeOrderIff | src/store/spool.c:1026-1065 | an earlier id comes before a later one in the tree if and only if the low 32 bits of its time are not above |
| SpoolTree.WrappedMissed | src/store/spool.c:861-912 | with times past 32 bits the walk turns away at the root from a spool in its range |
| SpoolTree.WalkOnce | src/util/nchan_rbtree.c:323-346 | with a sound pruning no node is visited twice |
| SpoolCollector.CollectedExactly | src/store/spool.c:861-912 | the spools collected for a message are those with ids in [prev_id, id), each once |
| SpoolCollector.CollectedIsWalk | src/store/spool.c:861-912 | the recursive collection is the pruned walk |
| SpoolCollector.Collector.AddSpool | src/store/spool.c:824-839 | array and overflow list together: push |
| SpoolCollector.Collector.UnwindNext | src/store/spool.c:841-858 | and pop, last in first out, across the switch from overflow to array |
| SpoolCollector.Collector.CollectRange | src/store/spool.c:861-912 | collects what the walk visits, in its order |
| SpoolStore.Store.OneSpool | src/store/spool.c:511-588 | in every reachable memory a subscriber has callback data exactly if it is in a spool, and it is in the list of one spool only, once |
| SpoolStore.Store.Counters | src/store/spool.c:511-588 | both counters of every spool are those of its list |
| SpoolStore.Store.GetSpool | src/store/spool.c:184-220 | finds the spool under an id or makes an empty INVALID one; no other changes |
| SpoolStore.Store.Add | src/store/spool.c:511-561 | the subscriber is first in the list of that spool, or nothing has changed if it could not be enqueued |
| SpoolStore.Store.Dequeue | src/store/spool.c:496-509 | the subscriber is gone from the list it was in, whichever spool that is, and the order of the others is kept |
| SpoolStore.Store.RespondGeneral | src/store/spool.c:590-645 | everybody in the list is handed the message once; those that dequeue themselves meanwhile are gone from it, the others stay in order |
| SpoolStore.Store.TransferSubscribers | src/store/spool.c:742-766 | the list moves over in reverse in front of the other one |
| SpoolStore.Store.DestroySpool | src/store/spool.c:1191-1236 | an empty spool is gone from the tree and from memory, and no other |
| SpoolStore.Store.Change | src/store/spool.c:264-281 | a spool under a new id or with a new status keeps its list |
| SpoolNodes.Nodes.AddNode | src/store/spool.c:511-561 | a new first node, its links, counts and callback data, or nothing anybody refers to if the enqueue fails |
| SpoolNodes.Nodes.RemoveNode | src/store/spool.c:563-588 | the node is unlinked wherever it is in its list, from its own links and the spool it names |
| SpoolNodes.Nodes.Unlist | src/store/spool.c:496-509 | callback data lead to the node and its spool; afterwards links, counts and callback data of all spools agree again |
| SpoolNodes.Nodes.AnswerNode | src/store/spool.c:625-640 | one subscriber is answered and may unlink itself; the walk goes on at the node that was next |
| SpoolNodes.Nodes.RespondGeneral | src/store/spool.c:625-640 | the walk along the links answers exactly the subscribers that were in the list, each once, and drops exactly those that leave |
| SpoolNodes.Nodes.TransferSubscribers | src/store/spool.c:742-766 | takes the first node until there is none; every callback data then name the spool that holds the node |
| SpoolNodes.Nodes.MoveFirst | src/store/spool.c:753-763 | one subscriber moves from the front of one list to the front of another |
| SpoolNodes.Nodes.Present | src/store/spool.c:511-588 | callback data lead to a node exactly for the subscribers in the lists, each in one list, once |
| SpoolMemory.LinkedOk | src/store/spool.c:511-561 | linking a node in front of one list keeps links, counts and callback data of all lists |
| SpoolMemory.UnlinkedOk | src/store/spool.c:563-588 | so does unlinking any node of any list |
| SpoolMemory.OneList | src/store/spool.c:511-588 | no subscriber is in two places |
| SpoolMemory.ExternalsCut | src/store/spool.c:579-587 | the count of non-internal subscribers loses one exactly for a non-internal subscriber |
| SpoolWalk.WalkHere | src/store/spool.c:625-640 | however many have unlinked themselves, the node the walk is at is in its list, its callback data lead back to it and its link to the node that was next |
| SpoolWalk.WalkEnd | src/store/spool.c:625-640 | when the walk is over, all have been answered and those that stay are left in order |
| FetchDeferral.Spooler.FetchMsg | src/store/spool.c:433-494 | a chain of fetches ends settled; it calls the store at most its allowance (22 within a millisecond) plus 22 times per spool it can merge into, and turns the spools it passes into one |
| FetchDeferral.Spooler.NextMsg | src/store/spool.c:222-302 | merging into the next spool or re-keying, then reacting to its status, ends settled |
| FetchDeferral.Spooler.AddSubscriber | src/store/spool.c:672-739 | a join at any place of the backlog, or one whose enqueue fails, keeps: subscribers with messages due have their timer armed with a fresh allowance, nobody is lost or out of order |
| FetchDeferral.Spooler.Dequeue | src/store/spool.c:496-509 | so does a subscriber that goes away, and nobody else is affected |
| FetchDeferral.Spooler.Publish | src/store/spool.c:928-964 | so does a publish |
| FetchDeferral.Spooler.TimerFires | src/store/spool.c:157-163 | so does a timer; each one that fires brings the work left for timers down |
| FetchDeferral.Spooler.RunTimers | src/store/spool.c:157-163 | timers firing in any order at any times end, and then everybody who has not left has the whole backlog in order |
| FetchDeferral.LeftIff | src/store/spool.c:590-645 | a subscriber has left upon a message if and only if it received it and leaves upon it, and unasked if and only if it dequeued itself; none that leaves when there is nothing yet is in a spool that has said so |
| FetchDeferral.CaughtUp | src/store/spool.c:440-449 | with no timer armed a subscriber has the log from where it joined to its end |
| FetchDeferral.LoadDrops | src/store/spool.c:440-449 | a chain of fetches lowers the work left, however many spools it merges |
| FetchDeferral.HandedOver | src/store/spool.c:343-351 | handing a message over and moving on keeps every delivery gapless and everybody in the spool they have got to |
| HashTable.Table.Find | src/uthash.h:156-166 | returns an element with that key that is in the table, and none only if there is none, Bloom filter or not |
| HashTable.Table.FindInBkt | src/uthash.h:818-837 | so does the walk along the links of one chain |
| HashTable.Table.Add | src/uthash.h:396-415 | appends to the element order and keeps order, chains, both kinds of links, head, tail, counts, bucket indexes, filter and load invariant in step; the buckets double exactly when the new element makes its chain too long and no two expansions in a row were ineffective, and the first element gets 32 |
| HashTable.Table.AppendList | src/uthash.h:278-284 | links the element behind the tail, or as head and tail of a new table |
| HashTable.Table.Delete | src/uthash.h:450-477 | removes exactly that element, from its own links alone, and keeps all of it in step, down to the empty table |
| HashTable.Table.UnlinkList | src/uthash.h:460-471 | patches neighbours, head and tail around an element anywhere in the order |
| HashTable.Table.Sort | src/uthash.h:961-1043 | the element order becomes its stable sort, linked from new head to new tail, and the table is as valid as before with every chain and counter unchanged |
| HashTable.Table.ExpandBuckets | src/uthash.h:906-954 | twice the buckets, the same elements each relinked into its new bucket; ideal chain length, multipliers and excess count as documented; expansions are counted as ineffective exactly when more than half of the elements are too deep, and inhibited exactly after two such in a row |
| HashTable.Table.LoadBound | src/uthash.h:840-859 | unless two expansions in a row were ineffective there are at most 19 elements per bucket, for any hash function |
| HashTable.Table.Perform | src/uthash.h:396-477 | after any sequence of additions and deletions the elements are those of a list treated alike, the table is valid, and that bound holds |
| HashTable.Table.InItsBucket | src/uthash.h:430-433 | an element is in the chain that the remainder of its hash value by the number of buckets names |
| HashBuckets.FlagsNext | src/uthash.h:946-951 | the count of ineffective expansions is that of the latest in a row, and the inhibitor is set exactly once two were |
| HashTable.Table.AddToBkt | src/uthash.h:840-859 | the element is linked first in its chain and the load invariant holds again, after an expansion if one was due |
| HashTable.PushHandle | src/uthash.h:844-849 | a handle at the head of one chain leaves every chain linked both ways |
| HashTable.Table.DelInBkt | src/uthash.h:862-875 | the element is in no chain, every chain is linked both ways and the load invariant holds |
| HashTable.CutHandle | src/uthash.h:862-875 | a handle unlinked from its chain, first, last or in between, leaves every chain linked both ways |
| HashTable.Table.MakeTable | src/uthash.h:212-242 | an indexed table of 32 empty buckets that expansion is not inhibited for |
| HashTable.RefileAll | src/uthash.h:922-941 | relinking chain by chain keeps every element, in the right bucket, with multipliers for the ideal length |
| HashTable.RefileChain | src/uthash.h:923-940 | walks an old chain whose links it overwrites and still moves all of it, leaving the chains to come as they are |
| HashBuckets.MovingStep | src/uthash.h:927-938 | refiling one element adds one to the excess exactly beyond the ideal length |
| HashBuckets.TakeOutOk | src/uthash.h:862-875 | taking an element out of its chain takes exactly it out of the table |
| Links.Unlink | src/uthash.h:460-471 | joining the neighbours of a node removes exactly it from a doubly linked list |
| HashBound.NineteenPerBucket | src/uthash.h:840-859 | chains within their thresholds, and multipliers plus chains at threshold at most the number of buckets, bound the load |
| HashBound.ExpandBalanced | src/uthash.h:906-954 | an expansion of a table over that bound by at most one restores the invariant, with an ideal length of at most 10 |
| HashBound.ExpandedWeights | src/uthash.h:927-932 | after an expansion the multipliers and chains at threshold take at most one bucket per ideal length of elements |
| HashBound.AddBalanced | src/uthash.h:840-859 | an element below the threshold keeps the invariant |
| HashBound.RemoveBalanced | src/uthash.h:862-875 | removing one keeps it |
| HashSort.Sort | src/uthash.h:961-1043 | ends with a permutation of the list that is sorted and stable, linked both ways from new head to new tail, for up to 2^32 elements and every total preorder |
| HashSort.OnePass | src/uthash.h:971-1033 | one pass relinks the list into the merge of its neighbouring runs, and counts the merges |
| HashSort.MergeRuns | src/uthash.h:987-1028 | the merge loop appends the merge of two runs to the output, with both links, and leaves the rest of the list intact |
| HashSort.FindQ | src/uthash.h:977-986 | steps to where the second run starts, or off the end |
| HashSort.PassRuns | src/uthash.h:971-1033 | sorted runs of one length become sorted runs of twice that length |
| HashSort.MergeOrdered | src/uthash.h:988-1028 | merging two sorted runs is sorted and keeps equal elements in order |
| HashSort.PassMultiset | src/uthash.h:971-1033 | a pass loses and repeats nothing |
| RwLock.MutualExclusion | src/store/ngx_rwlock.c:67-178 | for any number of processes and any interleaving, a writer is never together with a reader or another writer |
| RwLock.LockWordIs | src/store/ngx_rwlock.c:67-178 | with nobody inside the mutex, the lock word is the number of read holds, or -1 with the writer's pid recorded |
| RwLock.ReleaseTakesEffect | src/store/ngx_rwlock.c:101-178 | a holder's release passes both of its checks and always takes effect |
| RwLock.MutexProgress | src/store/ngx_rwlock.c:17-65 | the process inside the mutex leaves within six steps of its own, whatever the others do |
| RwLock.ReadGrantedIff | src/store/ngx_rwlock.c:67-100 | in any reachable state with the mutex free, a reader that moves alone has its hold within six steps if nobody holds the lock for writing, and otherwise stays and changes nothing |
| RwLock.WriteGrantedIff | src/store/ngx_rwlock.c:109-154 | so does a writer if nobody holds the lock at all |
| RwLock.ReturnsWithEffect | src/store/ngx_rwlock.c:67-178 | in every run a call returns only with its effect: a reservation with the hold, a release without it; until then the process keeps its holds |
| RwLock.ReleaseEnds | src/store/ngx_rwlock.c:101-178 | a release with the mutex free is over within eight steps of its own, lock word and pid as they should be |
| RwLock.StepInv | src/store/ngx_rwlock.c:17-178 | every atomic step of every process keeps the invariant behind these |
| RwLock.RunInv | src/store/ngx_rwlock.c:17-178 | so does every interleaving |
| RwLock.ReleaseGuard | src/store/ngx_rwlock.c:101-178 | at either check the lock word still shows the hold being released |
| SlotAllocation.AllocSlots | dev/redis-trib.rb:704-717 | the ranges partition the slots if and only if there are no more masters than slots, and then each has the floor or the ceiling of its share |
| SlotAllocation.RangeEnd | dev/redis-trib.rb:708-713 | the rounded end of a range is in bounds and leaves no range empty, so neither correction changes it |
| SlotAllocation.StartStep | dev/redis-trib.rb:704-717 | rounded multiples of the share differ by its floor or its ceiling |
| NodeInterleaving.Interleave | dev/redis-trib.rb:677-700 | ends with every node of every host exactly once, in round-robin order; without any host it does not end, and only then |
| NodeInterleaving.Fair | dev/redis-trib.rb:680-698 | at every prefix a host with nodes left trails any other host by at most one |
| NodeInterleaving.PrefixCount | dev/redis-trib.rb:680-698 | a prefix holds the first few nodes of each host |
| ReplicaAssignment.AssignNodes | dev/redis-trib.rb:660-771 | every master gets r replicas, the first n mod (r+1) of them one more, on another host than its own unless all nodes left are on it; no node is lost, and all are used if and only if that remainder does not exceed the number of masters |
| ClusterCreation.CreateCluster | dev/redis-trib.rb:657-771 | all of it together, from the nodes: in turn from the hosts, masters first, slots partitioned among the masters if there are enough, replicas as above, every node used once or left over; it does not end exactly without nodes |
| ClusterCreation.GroupByHost | dev/redis-trib.rb:669-673 | the nodes by host, each host once, each node in the list of its host |
| ReplicaAssignment.OneLeftOver | dev/redis-trib.rb:724-728 | 19 nodes with 4 replicas each leave one node unused |
| ReplicaAssignment.AssignPass | dev/redis-trib.rb:730-771 | a pass deals to the masters in turn as long as nodes last, and loses none |
| ReplicaAssignment.PickReplica | dev/redis-trib.rb:746-757 | the first node on another host than the master's, or the first node of all if there is none |
| Reshard.ReshardTable | dev/redis-trib.rb:872-901 | the lowest slots of each source, each once; from the biggest source its proportional part rounded up and from each other one rounded down, in order of size, until there are as many as asked for; short of it by at most max(0, k-2) for k sources; fails exactly when there are sources without slots |
| Reshard.ShareIsQuota | dev/redis-trib.rb:888-893 | the share is the proportional part, rounded up for the first source and down for the others |
| Reshard.GivesNext | dev/redis-trib.rb:894-898 | a source gives its share as far as it has it and as far as slots are still needed |
| Reshard.SharesBound | dev/redis-trib.rb:884-892 | only the sources after the first lose to rounding, less than a slot each |
| Reshard.SharesEnough | dev/redis-trib.rb:884-892 | so the shares fall short by at most max(0, k-2) |
| Reshard.BiggestFirst | dev/redis-trib.rb:880 | a permutation of the sources, biggest first |
| BalanceCorrection.CorrectionEndsIff | dev/redis-trib.rb:1061-1072 | the correction loop ends if and only if nothing is left over or some master is to receive slots |
| Rebalance.EvenClusterLoops | dev/redis-trib.rb:1030-1072 | three masters of equal weight with 5462, 5461 and 5461 slots, and a threshold below 0.018 percent, make the loop run for ever, whatever way the shares are computed |
| Rebalance.SharesAre | dev/redis-trib.rb:1033-1034 | with weights that are not negative a share e of a weight w out of W fulfils e * W <= n * w < (e + 1) * W, and the shares add up to more than n less one for each master and at most n |
| Rebalance.OverIff | dev/redis-trib.rb:1036-1048 | a master is acted upon exactly if it is off its share by more than the threshold's part of its slots, above or below, or has no slots and is to have some |
| Rebalance.Cluster.Judge | dev/redis-trib.rb:1030-1072 | nothing is done exactly if no master is off its share by the threshold; the command loops for ever exactly if slots are left over and no master is below its share |
| BalanceCorrection.Correct | dev/redis-trib.rb:1061-1072 | when it ends the balances add up to zero, givers are unchanged and receivers get the same number of extra slots within one |
| BalanceCorrection.PassesEven | dev/redis-trib.rb:1063-1071 | while slots are left over every receiver has got one per pass |
| Rebalance.Cluster.RebalanceAll | dev/redis-trib.rb:1030-1132 | for any weights every slot keeps exactly one owner, the shares are the parts of the slots that the weights stand for, and whether it acts, and loops for ever, is as above; with weights that are not negative no table is too short, masters above their share end at it and masters below within the evenly spread surplus above it |
| Rebalance.Cluster.Settle | dev/redis-trib.rb:1074-1132 | the two-pointer loop ends for any balances with every slot owned once; from balances that add up to zero, with enough slots, every master is at its target |
| Rebalance.Cluster.Round | dev/redis-trib.rb:1095-1131 | one round moves exactly what both sides need and brings the pointers closer |
| Rebalance.Cluster.Transfer | dev/redis-trib.rb:1102-1122 | the check on the length of the reshard table fails exactly if the source has fewer slots; otherwise exactly that many slots change owner |
| Rebalance.Cluster.MoveSlot | dev/redis-trib.rb:962-966 | every slot is still owned exactly once, only the two masters change, one has a slot less and the other that slot more |
| Rebalance.StepCloses | dev/redis-trib.rb:1095-1131 | a round keeps receivers before givers and the sum at zero |
| Rebalance.EndsMeet | dev/redis-trib.rb:1092-1100 | the first node never gives and the last never receives, and one is settled exactly when the other is |
| Rebalance.SurplusNotNegative | dev/redis-trib.rb:1030-1036 | shares cut off to integers never promise more slots than there are |
| Rebalance.OwnedTotal | dev/redis-trib.rb:1030-1036 | in a covered cluster the masters' slots add up to all of them |
| EventSource.RoundTripIff | src/subscribers/eventsource.c:133-244 | a reader of the stream gets every id and data unchanged and in order, with the event of the location if it has one, else the message's own, else none, empty messages and stray newlines included, if and only if no data holds a carriage return, no id a line break or NUL and no event name a line break |
| EventSource.CarriageReturnLost | src/subscribers/eventsource.c:138-160 | a message that is a single carriage return is not read back |
| EventSource.RespondMessage | src/subscribers/eventsource.c:106-244 | the chain built line by line and prepended to is the encoded message, which is read back with the location's event, else the message's own (`EventSource.ReadMessage`) |
| EventSource.DataChain | src/subscribers/eventsource.c:133-162 | the loop over the lines writes each of them, also the empty one after a final newline |
| EventSource.Stream | src/subscribers/eventsource.c:29-61 | the greeting, then the messages |
| EventSource.ReadMessage | src/subscribers/eventsource.c:106-244 | one encoded message in front of anything is read as that message and then the rest |
| EventSource.ReadHello | src/subscribers/eventsource.c:31 | the greeting is no event |
| Chunked.RoundTripIff | src/subscribers/http-chunked.c:67-135 | the non-empty messages come out one chunk each and in order, the terminator ends the stream and no message does, if and only if every message has less than 16^13 bytes |
| Chunked.ReadAll | src/subscribers/http-chunked.c:67-105 | messages that fit, in front of anything, are read as those messages and then the rest |
| Chunked.SizeLineWhole | src/subscribers/http-chunked.c:79 | the size line fits its buffer if and only if the message has less than 16^13 bytes |
| Chunked.DecodeChunk | src/subscribers/http-chunked.c:72-105 | a chunk in front of anything is read as that message and then the rest |
| Chunked.DecodeEnd | src/subscribers/http-chunked.c:132-135 | the terminator ends the stream, with no trailers |
| Chunked.Output | src/subscribers/http-chunked.c:67-105 | what is sent grows by one chunk for the message, or by nothing for an empty one |
| Chunked.Respond | src/subscribers/http-chunked.c:46-135 | the chunks of all messages, then the terminator |
| LongPoll.RoundTripIff | src/subscribers/longpoll.c:366-412 | a reader of the multipart body gets the same bodies and content types in order, if and only if no body has a line that starts like the boundary and no content type a line end |
| LongPoll.Respond | src/subscribers/longpoll.c:323-412 | walks the list and emits that body; the declared length is the number of bytes emitted |
| LongPoll.Multimsg.Add | src/subscribers/longpoll.c:248-277 | appends to the linked list, also to an empty one |
| LongPoll.ReadPart | src/subscribers/longpoll.c:380-412 | one part in front of the next delimiter is read as that part and then the rest |
| Multipart.PartsGood | src/subscribers/longpoll.c:366-412 | whatever it is given, a reader reports only parts that would survive being written |
| Buffers.BufChain.Append | src/util/nchan_bufchainpool.c:107-134 | the running length stays the number of bytes in the chain |

## Left out

- Channels that are not ready, and channel status changes during fetches: the spooler is modelled on a
  ready channel with a complete buffer.
- EXPIRED, NOTFOUND, ERROR and PENDING replies; the move to the oldest or newest spool they cause.
- Spools destroyed with subscribers still in them, spools kept because they are reserved, and failed
  allocation of a node. Freed nodes are not used again.
- ChannelSpooler.ChannelSpooler.RespondMessage: with times of 2^32 or more it does not promise the publish
  step, because the walk can miss a spool, as `SpoolTree.WrappedMissed` shows.
- More than one tag in the spooler's step system, the NTH and passthrough strategies, status broadcasts,
  stopping a spooler, and the handlers it calls. Ids with several tags are covered in the id order and
  the range walk only.
- The red-black tree's balancing: the walk is proved on every ordered tree.
- Real time in `FetchDeferral`: the clock is a parameter, one value per event; ids are numbered by their
  place in the log.
- Tables with several handles per element. The hash of an element is an arbitrary function of its key, the
  bucket mask a remainder, and the table's 32-bit counters do not overflow.
- HashTable.Table.Add: the key is not in the table yet, as `uthash.h` asks of its callers.
- Out-of-memory handling in the hash table, HASH_SELECT and the hash functions.
- Weak memory order in the lock: every access is one atomic step; spinning and yielding are not steps.
- Floating point in redis-trib: shares are computed with exact real numbers.
- Loops that do not end are outcomes of `Rebalance.Cluster.RebalanceAll` and
  `NodeInterleaving.Interleave`, since a Dafny method has to end.
- Rebalance.Cluster.RebalanceAll: with negative weights only the ownership of the slots is promised.
- Talking to Redis, moving keys, prompts, reports and the CRC16 slot function.
- EventSource messages in files, reconnection times and the byte order mark.
- Long-poll responses with one message or with a raw separator instead of boundaries; transport padding
  and preambles are read but never written.
- Everything around these parts: request handling, configuration, stores, interprocess messages,
  Websockets and the browser client.
