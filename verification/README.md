# A verified model of the key-value cluster

The repository is a key-value store spread over several servers. A coordinator (ECS) places the
servers on a hash ring, starts and stops them, and lets them hand keys to each other when the ring
changes. Each server holds a map and answers `get` and `put`. A client library caches the ring,
sends every request to the server it believes responsible, and follows redirects. The connections
agree on a key first. The repository also ships the web demos of ActiveMQ, two of which contain
real algorithms: a STOMP frame printer and parser, and a batching queue for outgoing messages.

This project models that behaviour in Dafny and proves, for every input and every run:

* **The cluster is one map.** In every run of client requests (with any cached ring and any way of
  being routed), node additions, node removals and shutdowns, each reply is the reply of a single
  map, and after every event the stores hold exactly that map; a get returns the value of the last put
  of its key (`Refinement`). For a single key this holds exactly when at most one server claims the
  key, and it is stated which hashes that excludes.
* **Reconfiguration loses nothing, or exactly this.** `addNode` keeps every key in its server's range
  and every pair stored once. `removeNode` does too, except for an exactly stated set of keys, which
  is empty if and only if a condition holds that an operator can test beforehand (`Placement`,
  `Reconfiguration`).
* **A transfer moves each key atomically.** Its single messages may be interleaved with any client
  requests at both ends. Each key changes hands at the moment it is sent: what clients did to it at the
  receiver before is overwritten, what they do afterwards counts (`Handover`). As long as no client puts
  a key at the receiver after it was sent, the whole transfer has the effect of one step (`Migration`).
  Between the end of a transfer and the broadcast of the new ring there are no such guarantees, and it
  is stated what clients then see and lose (`Window`).
* **Redirects end.** At most one in a steady cluster; at most two in every state of `addNode` from the
  launch of the new process on; at most one in every state of `removeNode` once the successor was told.
  There a request fails, its connection dropped, exactly if it is led to the leaver after the leaver was
  told the ring it is no longer part of (`Client`, `Redirects`).
* **The commands do this.** The coordinator, server, storage and client objects are classes whose
  methods are proved to have exactly the effects that the theorems are about (`Coordinator`,
  `RingBuilder`, `Server`, `Storage`, `Client`).
* **Key agreement** through square-and-multiply, with an exact operation count (`KeyExchange`); the
  **STOMP stream round trip** (`Stomp`), also for frames of senders that print no length
  (`ForeignFrames`); and **order, conservation, the exact waiting time and the return to idleness** of
  the batching queue (`Batching`).

## How the model is built

| file | what it models |
|---|---|
| `Ring.dfy` | positions, ranges, the coordinator's own interval arithmetic |
| `RingBuilder.dfy` | the loop that computes the ranges from a list of nodes |
| `Strings.dfy`, `RangeText.dfy`, `Utf8.dfy` | text primitives; ranges as text; the bytes that the key limit counts |
| `Storage.dfy`, `Server.dfy` | a server's map, its dispatcher, its administration, moving data |
| `Dictionary.dfy`, `Dispatcher.dfy`, `Administration.dfy` | the reference map, and one server's conversation against it; what its administration means for clients |
| `Cluster.dfy`, `Placement.dfy`, `Reconfiguration.dfy` | the cluster as a value; what commands do to it |
| `Network.dfy`, `Coordinator.dfy` | server objects by address; the coordinator object |
| `Migration.dfy`, `Handover.dfy`, `Window.dfy` | one transfer, message by message; what becomes of each key; the time until the broadcast |
| `Client.dfy`, `Redirects.dfy` | the client object; how often it can be redirected |
| `Refinement.dfy` | the cluster as one map |
| `KeyExchange.dfy`, `Stomp.dfy`, `ForeignFrames.dfy`, `Batching.dfy` | the algorithms beside the cluster; STOMP texts of other senders |

Objects that change their fields are classes. Each has a `State()` that gives its value, and each
method is proved against a function or a relation on those values; the theorems are about the
values. Where the program may pick any of several entries (hash maps are visited in an order of
their own, `addNode` takes a random idle node) the model allows every choice.

Conventions and hypotheses:

* MD5 is a parameter, an arbitrary function from strings to 128-bit numbers. The hash that turns a
  shared secret into key bytes is a parameter as well.
* A configured node that is not running is a server that is `Down`: stopped, without metadata, with an
  empty store, since a server clears its storage when it exits.
* `Spread`: server positions are at least three apart. The shifted lookup needs it (`Ring.LookupExact`
  says exactly how far).
* `OffZero`: no server sits at position 0. The cluster modules keep ranges as pairs of numbers; under
  this hypothesis every range in use can be written as text and read back (`Refinement.Legible`), and
  `RangeText.RingReadable` says exactly when a ring can.
* `OffEdge`, `KeysOffEdge`: no key in use hashes to a server position or to one less. The whole-run
  theorem assumes it for all configured nodes; the theorem for one request only assumes that a single
  server claims the key.
* `AllStarted`: the active servers are open for clients. `Represents` and `Settled` collect what holds
  between commands.

Where the code and its comments disagree, the model follows the code:

* The comment above the range computation says the predecessor's position is excluded. It is excluded
  only from the range that wraps; every other range starts one before its predecessor's position.
  `Ring.OverlapExact` states which hashes two servers claim, `Refinement.AmbiguousKeysDisagree` what
  clients then observe, and `Reconfiguration.RemovalLossless` what is lost when the last server of the
  ring is removed.
* A range start of -1 is written as text that no reader accepts; `RangeText.RingReadable` states when
  that happens.
* `moveData` flushes a key even if the receiver refused it. `Placement.MoveConserves` states exactly
  what is lost, and the lemmas about joining and leaving show when that is nothing.
* Between the end of a transfer and the broadcast of the new ring, the server that has handed its keys
  over still goes by the old ring. It denies having the keys it has just handed over (`Window.LateGet`,
  `Window.LeaverGet`). A put that the successor of a new node takes breaks the placement exactly if the
  key left its range (`Window.LatePut`); a put that a leaving node takes is acknowledged and then lost
  (`Window.LeaverPut`).
* A new node is open for clients before its keys arrive. A put acknowledged there is overwritten by
  the transfer exactly if its key had not been sent yet, unless the values agree (`Handover.EarlyPut`).

## Model

| member | source | states |
|---|---|---|
| Ring.Covered | src/app_kvECS/ECSClient.java:953-979 | for every non-empty set of positions every hash lies in the range of its clockwise successor: no hash is unserved |
| Ring.OwnerIsNext | src/app_kvServer/KVServer.java:275-281 | off the edges a server is responsible for a hash if and only if it is the clockwise successor |
| Ring.OutsideIs | src/app_kvServer/KVServer.java:275-281 | what a range leaves out: both sides of it, or the gap between its end and its start if it wraps; a range with equal bounds is the whole space |
| Ring.OverlapExact | src/app_kvECS/ECSClient.java:969-976 | two servers claim the same hash if and only if it is a position other than the largest, or one less |
| Ring.LookupExact | src/app_kvECS/ECSClient.java:887-935 | the lookup at hash minus two matches the clockwise successor and nothing else, for every visiting order, if and only if there is one server or none sits one or two positions before |
| Ring.InsertIsLocal | src/app_kvECS/ECSClient.java:955-979 | a new position changes no range except that of its clockwise successor |
| Ring.InsertSplitsSuccessor | src/app_kvECS/ECSClient.java:955-979 | the successor's range shrinks, and with the newcomer's range still covers all it had |
| Ring.RemovalExact | src/app_kvECS/ECSClient.java:955-979 | when a position is removed its successor takes over its whole range except exactly the stranded hashes |
| RingBuilder.SortedCorrect | src/app_kvECS/ECSClient.java:953 | the sorted list of hashes is ascending and has the same elements and length |
| RingBuilder.HashNodes | src/app_kvECS/ECSClient.java:942-951 | the list of hashes and the map back to addresses, for any list of nodes |
| RingBuilder.BuildRanges | src/app_kvECS/ECSClient.java:957-979 | the loop gives each owner the range read off its left neighbour in the sorted list, the first one wrapping |
| RingBuilder.CalcMetadata | src/app_kvECS/ECSClient.java:937-983 | for nodes with different addresses and hashes the result is the ring of the set of addresses, whatever the order of the list |
| RangeText.TextRoundTrip | src/app_kvECS/ECSClient.java:976 | the text of a range reads back to the same bounds if and only if neither bound is negative, and is unreadable otherwise |
| RangeText.NoUpperBound | src/app_kvServer/KVServer.java:268-269 | a text without a colon, or with nothing behind it, is not read |
| RangeText.ThirdBound | src/app_kvServer/KVServer.java:268-269 | what follows a second colon is ignored |
| RangeText.NoLowerBound | src/app_kvServer/KVServer.java:268-269 | an empty lower bound is zero |
| RangeText.TextExample | src/app_kvECS/ECSClient.java:976 | bounds are written in lower case and without leading zeros |
| RangeText.RingReadable | src/app_kvServer/KVServer.java:268-269 | all ranges of a ring read back if and only if there is no server at position 0 together with another server |
| RangeText.OffZeroReadable | src/app_kvECS/ECSClient.java:908-909 | without a server at position 0 every range of every ring reads back to its bounds |
| RangeText.InitialText | src/client/KVStore.java:34 | the client's initial range text is read as the whole hash space |
| Storage.KVStorage.Put | src/storage/KVStorage.java:117-158 | the key is stored afterwards, with the given value, unless that is null, empty or "null", in which case it is not stored; all other keys stay as they were |
| Storage.KVStorage.FlushData | src/storage/KVStorage.java:160-172 | the loop of deletions removes exactly the listed keys, stored or not |
| Server.KVServer.Serve | src/shared/comm/CommModule.java:294-383 | reply and new state are those of the dispatcher specification, with stop, lock, size, responsibility and storage tested in the source's order |
| Server.KVServer.AdminServe | src/shared/comm/CommModule.java:387-461 | each administrative command has its status and changes only its part of the state; MOVE_DATA without range and receiver fails |
| Server.KVServer.AdminMove | src/shared/comm/CommModule.java:420-438 | MOVE_DATA reports failure exactly if the receiver throws on a selected key, and then both stores are as before and the lock is on |
| Server.KVServer.FlushData | src/app_kvServer/KVServer.java:220-228 | the marked keys, and no others, leave the store, and none stays marked |
| Server.KVServer.Boot | src/app_kvServer/KVServer.java:382-410 | a started process is stopped for clients, knows no ring and keeps its storage file |
| Server.KVServer.Migrate | src/app_kvServer/KVServer.java:164-177 | the key is marked before it is offered, and stays marked whatever the receiver replies |
| Server.KVServer.SendSelected | src/app_kvServer/KVServer.java:144-187 | for every visiting order: it fails exactly if the receiver throws on a selected key; otherwise all selected keys are marked and the receiver gains exactly those it accepts |
| Server.KVServer.MoveData | src/app_kvServer/KVServer.java:130-196 | success: the sender is without the selected keys and unlocked, the receiver has those it accepts; failure: both stores as before, still locked |
| Server.OfferOne | src/app_kvServer/KVServer.java:174-183 | one migrated put is stored exactly if the receiver accepts the key; a refusal leaves no trace |
| Dispatcher.AdmittedIsApplied | src/shared/comm/CommModule.java:315-374 | an admitted request changes the store and is answered exactly as on a map |
| Dispatcher.StatusTellsEffect | src/shared/comm/CommModule.java:335-374 | PUT_SUCCESS and DELETE_SUCCESS are reported exactly when the key appears or disappears, success and update leave the value behind, and without such a report nothing has changed |
| Dispatcher.SessionRefinesMap | src/shared/comm/CommModule.java:294-383 | over any sequence of requests the store is the map after the admitted ones, these got the map's replies, and keys keep 1 to 20 bytes with values never null, empty or "null" |
| Dispatcher.GetTellsValue | src/shared/comm/CommModule.java:317-333 | a get never changes the server; GET_SUCCESS carries the key and the stored value, any other answer no value; the server in charge answers GET_SUCCESS or GET_ERROR according to whether the key is stored |
| Dispatcher.PutStores | src/shared/comm/CommModule.java:348-367 | at the server in charge a key of 1 to 20 bytes is stored after a put, with that value, if and only if the value is not null, empty or "null"; nothing else changes |
| Dispatcher.PutReplies | src/shared/comm/CommModule.java:350-378 | the reply to that put: one of four statuses by presence and deletion, with the key and the value of the request |
| Dispatcher.KeyLimit | src/shared/comm/CommModule.java:341-342 | a put of a key of no or more than 20 bytes is answered PUT_ERROR and changes nothing |
| Dispatcher.RefusalTellsWhy | src/shared/comm/CommModule.java:311-347 | stopped and locked servers say so; SERVER_NOT_RESPONSIBLE is only said by a server whose own range excludes the key, and carries its ring |
| Utf8.LengthCountsBytes | src/shared/comm/CommModule.java:306 | the length that the key limit measures is the number of bytes of the UTF-8 encoding (RFC 3629, section 3) |
| Utf8.BytesDecode | src/shared/comm/CommModule.java:306 | that encoding is decodable: the bytes give back every character |
| Administration.StopUntilStart | src/shared/comm/CommModule.java:400-407 | between STOP and START every request is turned away, and START brings the server back as it was |
| Administration.LockUntilUnlock | src/shared/comm/CommModule.java:412-419 | between LOCK and UNLOCK puts are turned away and gets answered as without the lock |
| Administration.FlushRemovesMarked | src/shared/comm/CommModule.java:447-454 | FLUSH removes exactly the marked keys |
| Administration.RingTakesEffect | src/shared/comm/CommModule.java:392-446 | INIT_SERVER and UPDATE fail without a ring; with one, it decides from then on whom the server answers and what redirected clients are told |
| Administration.ShutdownForgets | src/shared/comm/CommModule.java:408-411 | a server started again after SHUTDOWN has no data, no ring and no marks, and turns clients away |
| Placement.MoveConserves | src/app_kvServer/KVServer.java:164-187 | a transfer keeps every pair, each stored once, except exactly the pairs the receiver refused |
| Placement.FoundIsNext | src/app_kvECS/ECSClient.java:897-930 | any entry that the shifted lookup returns is the address itself if it is a member, otherwise its clockwise successor |
| Placement.FoundExists | src/app_kvECS/ECSClient.java:902-935 | on a ring with at least one server the lookup never returns null |
| Placement.JoinRanges | src/app_kvECS/ECSClient.java:955-979 | a hash stays with its server when a node joins, or passes from the successor to the new node |
| Placement.JoinHolds | src/app_kvECS/ECSClient.java:461-523 | the disjoint union of all stores is the same before and after a node joins |
| Placement.JoinSteady | src/app_kvECS/ECSClient.java:461-523 | after a node joined every server knows the new ring and stores only keys of its own new range |
| Placement.PartTakes | src/app_kvECS/ECSClient.java:739-743 | the successor's new range contains a hash of the leaver exactly if it is not stranded |
| Placement.RefusedIsLost | src/app_kvServer/KVServer.java:164-177 | all keys of the leaver are selected for sending, and the refused ones are all of them if the successor is stopped, otherwise the stranded ones |
| Placement.PartHolds | src/app_kvECS/ECSClient.java:731-786 | the stores hold what they held, without exactly the lost keys of the leaver |
| Placement.PartSteady | src/app_kvECS/ECSClient.java:731-786 | after a node left every server knows the new ring and keeps to its new range, and the leaver is down and empty |
| Reconfiguration.AddNodeSettles | src/app_kvECS/ECSClient.java:417-526 | whatever idle node is chosen and whatever entries are found, addNode keeps the placement invariant and the node lists, also for the first node |
| Reconfiguration.AddNodeConserves | src/app_kvECS/ECSClient.java:417-526 | addNode keeps the placement invariant and exactly the stored pairs |
| Reconfiguration.RemoveNodeExact | src/app_kvECS/ECSClient.java:731-796 | removeNode keeps the placement invariant, empties the leaver and keeps all pairs except an exact set; all are kept if and only if that set is empty |
| Reconfiguration.RemovalLossless | src/app_kvECS/ECSClient.java:731-796 | with all servers started nothing is lost if and only if the leaver stores no stranded key |
| Reconfiguration.StrandedExample | src/app_kvECS/ECSClient.java:969-973 | a ring of three where removing the last server strands two hashes |
| Reconfiguration.RemovalCanLose | src/app_kvECS/ECSClient.java:731-796 | in a settled and started cluster of three, keys at the last server that hash to its predecessor's position are lost by its removal, whatever the lookups return |
| Reconfiguration.RemovalLosesExample | src/app_kvECS/ECSClient.java:731-796 | a concrete such cluster, store and removal |
| Reconfiguration.AddThenRemove | src/app_kvECS/ECSClient.java:417-526 | addNode and then removeNode of the same node restores the metadata, the active list and every server's stored map |
| Reconfiguration.AddNodePossible | src/app_kvECS/ECSClient.java:466-507 | between commands addNode never fails on a lookup, whichever idle node is chosen |
| Reconfiguration.RemoveNodePossible | src/app_kvECS/ECSClient.java:739-745 | with another active node removeNode never fails on a lookup |
| Coordinator.ECSClient.constructor | src/app_kvECS/ECSClient.java:46-104 | a coordinator that starts, for the first time or again, has exactly the attending nodes active, loses none, and has the ring the servers have |
| Coordinator.NothingRuns | src/app_kvECS/ECSClient.java:46-61 | with no process running and nobody attending, the coordinator's first start meets the hypothesis of its constructor |
| Coordinator.TakeAttendance | src/app_kvECS/ECSClient.java:81-97 | the loop that removes from the list it walks over moves exactly the attending nodes, and keeps every node listed once |
| Coordinator.RestartFindsActive | src/app_kvECS/ECSClient.java:81-99 | a coordinator started again finds exactly the nodes that were active |
| Coordinator.ECSClient.GetNodeByKey | src/app_kvECS/ECSClient.java:887-935 | returns some matching entry, or none exactly if no entry matches |
| Coordinator.ECSClient.UpdateAllNodesMeta | src/app_kvECS/ECSClient.java:683-706 | exactly the active servers, all of them, get the current metadata |
| Coordinator.ECSClient.PlanAdd | src/app_kvECS/ECSClient.java:418-474 | the successor is looked up in the old ring, the new ring is that of the active nodes and the new one, and no server is contacted |
| Coordinator.ECSClient.Launch | src/app_kvECS/ECSClient.java:436-488 | process start, INIT_SERVER and START leave the node running, open and with the ring, and touch no other server |
| Coordinator.ECSClient.MoveData | src/app_kvECS/ECSClient.java:498-511 | MOVE_DATA to one server changes it and the receiver only, as a transfer does |
| Coordinator.ECSClient.Populate | src/app_kvECS/ECSClient.java:476-521 | the new node is initialised before it is started, then receives the range found for it |
| Coordinator.ECSClient.AddNode | src/app_kvECS/ECSClient.java:417-526 | the whole command has the effect of the addNode relation for some idle node, and keeps the invariant |
| Coordinator.ECSClient.PlanRemove | src/app_kvECS/ECSClient.java:734-743 | the leaver's range comes from the old ring and its successor from the ring without it |
| Coordinator.ECSClient.HandBack | src/app_kvECS/ECSClient.java:746-773 | the successor knows the new ring before it receives the data, and everyone knows it afterwards |
| Coordinator.ECSClient.ShutdownServer | src/app_kvECS/ECSClient.java:340-375 | the first active node of the name goes down and from the active to the end of the idle list; without one nothing changes |
| Coordinator.ECSClient.RemoveNode | src/app_kvECS/ECSClient.java:731-803 | the whole command has the effect of the removeNode relation for the first node of the name, or changes nothing if there is none, and keeps the invariant |
| Coordinator.ECSClient.ShutDown | src/app_kvECS/ECSClient.java:378-406 | although it removes from the list it walks over, the loop visits every active node in order; all servers are down and empty afterwards |
| Coordinator.ECSClient.Switch | src/app_kvECS/ECSClient.java:302-338 | start and stop change the flags of exactly the active servers, all succeed, and the invariant is kept |
| Coordinator.ECSClient.AddMany | src/app_kvECS/ECSClient.java:183-191 | addNodes adds exactly the requested number of nodes and keeps all stored pairs |
| Coordinator.ECSClient.AddIfAvailable | src/app_kvECS/ECSClient.java:172-180 | nodes are added exactly if some are idle and no more are asked for; a refusal changes nothing |
| Coordinator.ECSClient.Handle | src/app_kvECS/ECSClient.java:128-234 | each command is obeyed exactly under its guard: idle nodes enough for addNodes and addNode, two active nodes and a known name for removeNode; a refused one changes nothing, an obeyed one has its effect, and the nodes are conserved |
| Coordinator.AddedMeans | src/app_kvECS/ECSClient.java:417-526 | after addNode the new node is last in the active list, runs, is open and knows the ring like all active servers |
| Coordinator.RemovedMeans | src/app_kvECS/ECSClient.java:731-796 | removeNode takes the first active node of that name; the others stay in order and know the new ring, the leaver is down, empty and last in the idle list |
| Coordinator.AllDownMeans | src/app_kvECS/ECSClient.java:160-169 | after shutDown every active server is down and empty and listed as idle, all others are as before |
| Coordinator.SwitchedMeans | src/app_kvECS/ECSClient.java:136-157 | start and stop open or close exactly the active servers and change nothing else |
| Coordinator.ECSClient.Run | src/app_kvECS/ECSClient.java:113-121 | after any sequence of commands the lists are duplicate-free, disjoint and together hold exactly the configured nodes |
| Migration.SenderAnswersFromSnapshot | src/app_kvServer/KVServer.java:131-187 | until the flush no client put changes the sender or succeeds there, and every get is answered as before the transfer |
| Migration.ServeCommutes | src/shared/comm/CommModule.java:335-374 | a client request at the receiver commutes with the migrated keys unless it puts one of them |
| Migration.TransferIsAtomic | src/app_kvServer/KVServer.java:130-196 | every interleaving of a transfer with client requests, none of which puts a key at the receiver after it was sent, has the effect of the requests followed by the transfer in one step; it aborts exactly if the receiver throws on a sent key |
| Handover.QuietRun | src/app_kvServer/KVServer.java:144-187 | for any client requests: until a key is sent, its value at the receiver is what the receiver's clients make of it |
| Handover.KeyAfterVisit | src/app_kvServer/KVServer.java:164-177 | for any client requests: an accepted key's value at the receiver is what the clients' requests after the key was sent make of the sender's value, whatever they did before |
| Handover.RefusedStays | src/app_kvServer/KVServer.java:174-183 | for any client requests: under a refused key the receiver's store never changes |
| Handover.EarlyPut | src/app_kvECS/ECSClient.java:478-511 | a put acknowledged by the receiver during the transfer survives it if and only if its key had already been sent or the values agree |
| Handover.WhereKeysAre | src/app_kvServer/KVServer.java:164-194 | a key that no client puts at the receiver is at the sender alone until it is sent, then at both with equal values exactly if accepted, and after the flush at the receiver exactly if accepted and never at the sender |
| Handover.NeverAtNeither | src/app_kvServer/KVServer.java:175-187 | unless a client deletes one of them, at no point is a key of the range missing from both servers, if and only if a finished transfer had a receiver that accepts them all |
| Handover.TargetGets | src/shared/comm/CommModule.java:317-333 | the receiver denies having a key that no client puts there until it was sent, and then answers with its value |
| Handover.JoinIsWilling | src/app_kvECS/ECSClient.java:476-511 | the transfer of addNode has a receiver that accepts everything and holds nothing of it |
| Handover.PartIsWilling | src/app_kvECS/ECSClient.java:746-771 | the transfer of removeNode has a receiver that accepts everything if and only if nothing is lost |
| Window.LatePut | src/app_kvServer/KVServer.java:187-194 | addNode: a put that the sender takes before it hears of the new ring succeeds, and breaks the placement if and only if the key left its range |
| Window.LateGet | src/app_kvServer/KVServer.java:187-194 | addNode: before the broadcast a get at the sender of a key it stored is answered with an error if and only if the key was handed over, although the new server holds it |
| Window.LeaverGet | src/app_kvECS/ECSClient.java:771-773 | removeNode: until it is told, the leaver denies having any key it claims |
| Window.LeaverPut | src/app_kvECS/ECSClient.java:771-786 | removeNode: a put that the leaver takes before it is told is reported a success, and all servers end as if it had never been asked for |
| Client.RedirectIsInert | src/shared/comm/CommModule.java:344-348 | a server redirects exactly if it is open for the request and not responsible; it does not change and hands out its own metadata |
| Client.RedirectBound | src/client/KVStore.java:76-83 | if redirects lead down a ranking that starts at k, a request is redirected at most k + 1 times, whatever is cached and whether or not all servers know themselves |
| Client.KVStore.constructor | src/client/KVStore.java:30-35 | a fresh client believes its server responsible for the whole hash space |
| Client.KVStore.ConnectCorrServer | src/client/KVStore.java:123-170 | it connects to some cached entry whose range contains the hash, or stays where it is exactly if there is none |
| Client.KVStore.First | src/client/KVStore.java:66-76 | the first attempt goes to a server that the cache names, or stays where it is; it fails exactly at a server that cannot be reached |
| Client.KVStore.Follow | src/client/KVStore.java:76-83 | the retry goes to a server named by the redirecting server's metadata, and a further redirect is lower in the ranking |
| Client.KVStore.Request | src/client/KVStore.java:66-115 | the loop ends; all servers but the last redirected and did not change, the last one gave the reply; the client stays connected to it and keeps the metadata of the last redirect, if there was one |
| Client.KVStore.Put | src/client/KVStore.java:66-86 | put is such an exchange, with the redirect bound |
| Client.KVStore.Get | src/client/KVStore.java:95-115 | get is such an exchange, with the redirect bound |
| Redirects.SteadyRedirects | src/client/KVStore.java:76-83 | in a steady cluster at most one redirect, whatever the client has cached |
| Redirects.SteadyAnswers | src/client/KVStore.java:66-115 | in a steady cluster every request that reaches a live server is answered |
| Redirects.RedirectedHasRing | src/client/KVStore.java:76-83 | after a redirect in a steady cluster the client has the ring in its cache |
| Redirects.RingIsDirect | src/client/KVStore.java:123-170 | a client that has the ring is never redirected, whatever the key |
| Redirects.JoiningRedirects | src/app_kvECS/ECSClient.java:436-523 | from the launch of the new process on, and for any subset of servers already updated, at most two redirects |
| Redirects.LaunchedViews | src/app_kvECS/ECSClient.java:436-478 | the state of addNode between launch and INIT_SERVER meets the hypothesis of JoiningRedirects |
| Redirects.JoiningViews | src/app_kvECS/ECSClient.java:478-523 | so do the states after the transfer, at every point of the broadcast |
| Redirects.PartingRedirects | src/app_kvECS/ECSClient.java:753-786 | once the successor was told, and for any subset of servers already updated, the leaver among them or not, at most one redirect |
| Redirects.PartingDrops | src/app_kvServer/KVServer.java:258-268 | in these states, among open servers, a well-formed request is dropped if and only if it is led to the leaver after that was told |
| Redirects.PartingTold | src/app_kvECS/ECSClient.java:753-757 | the state of removeNode after the successor was told meets the hypothesis of PartingRedirects |
| Redirects.PartingViews | src/app_kvECS/ECSClient.java:770-786 | so do the states after the transfer, at every point of the broadcast |
| Refinement.UnambiguousExact | src/app_kvECS/ECSClient.java:969-976 | at most one server claims a key if and only if its hash is neither a position other than the largest nor one less |
| Refinement.RequestRefines | src/client/KVStore.java:66-115 | for an unambiguous key the reply is the map's reply and the stores hold the updated map, whatever was cached and however the client was routed |
| Refinement.AmbiguousKeysDisagree | src/app_kvServer/KVServer.java:275-281 | for a key that two servers claim, a get through one denies what a put through the other has just stored, so the condition of RequestRefines is also necessary |
| Refinement.StepRefines | src/app_kvECS/ECSClient.java:417-526 | every event, request or command, keeps the cluster in step with the map |
| Refinement.SettledIsLegible | src/app_kvECS/ECSClient.java:908-909 | between commands every range that a server or the coordinator holds reads back from its text |
| Refinement.ClusterIsOneMap | src/client/KVStore.java:66-115 | in every run of requests, additions, removals and shutdowns each reply is that of one map, and after every event the stores hold exactly the map and every range in use can be read |
| Refinement.GetsReadLastPut | src/client/KVStore.java:95-115 | in every such run a get is answered with the value of the last put of its key, or with GET_ERROR if there is none, it deleted the key, or all servers were shut down since |
| Refinement.RunTracks | src/app_kvECS/ECSClient.java:128-228 | at every point of a run the cluster is settled, started and holds the map of the requests so far |
| KeyExchange.Log2Is | src/shared/comm/CommModule.java:542-550 | the number of rounds is the position of the exponent's highest binary digit |
| KeyExchange.FastModExp | src/shared/comm/CommModule.java:534-554 | the result is the power modulo p; the loop turns exactly log2 x times, with exactly log2 x plus the number of binary ones multiplications, at most 2 log2 x + 1 |
| KeyExchange.ModExpIsPower | src/shared/comm/CommModule.java:536-538 | the result is the power modulo p if and only if the exponent is positive or p is above 1, since the exponent zero skips the reduction |
| KeyExchange.Agreement | src/shared/comm/CommModule.java:503-518 | both ends compute the same secret for all exponents if p is above 1, and for p = 1 if and only if both or neither are zero |
| KeyExchange.CommModule.SetKey | src/shared/comm/CommModule.java:517-530 | the key is derived from the power of the received message |
| KeyExchange.CommModule.SendSecret | src/shared/comm/CommModule.java:503-506 | the message is 2 to the secret modulo the prime of section 2 of RFC 3526, whose digits `KeyExchange.PrimeIs` gives |
| KeyExchange.Exchange | src/shared/comm/CommModule.java:88-102 | after the handshake both ends have the same key, derived from 2 to the product of both secrets modulo the prime |
| Stomp.ToString | apache-activemq-5.15.14/webapps-demo/demo/websocket/stomp.js:35-49 | the text of the frame with its headers in some order, each once |
| Stomp.ReadToNul | apache-activemq-5.15.14/webapps-demo/demo/websocket/stomp.js:72-80 | the loop collects the text up to the first NUL or the end |
| Stomp.ReadHeaders | apache-activemq-5.15.14/webapps-demo/demo/websocket/stomp.js:60-64 | later header lines overwrite earlier ones, and a header named __proto__ is dropped |
| Stomp.UnmarshallSingle | apache-activemq-5.15.14/webapps-demo/demo/websocket/stomp.js:51-82 | parses every non-empty text, well-formed or not, as the parsing specification says; the lemmas of `ForeignFrames` say what that is |
| Stomp.Unmarshall | apache-activemq-5.15.14/webapps-demo/demo/websocket/stomp.js:84-98 | the parsed non-empty pieces of the text in order |
| Stomp.LengthRead | apache-activemq-5.15.14/webapps-demo/demo/websocket/stomp.js:67-70 | parseInt reads a printed body length back to the same number |
| Stomp.FrameRoundTrip | apache-activemq-5.15.14/webapps-demo/demo/websocket/stomp.js:35-82 | a well-formed frame, printed in any header order, is parsed back to the frame that arrives |
| Stomp.StreamPieces | apache-activemq-5.15.14/webapps-demo/demo/websocket/stomp.js:87-95 | a stream splits into exactly the printed frames, however many LFs follow each NUL |
| Stomp.StreamRoundTrip | apache-activemq-5.15.14/webapps-demo/demo/websocket/stomp.js:84-104 | unmarshalling a stream of marshalled well-formed frames gives all frames back in order |
| Stomp.ArrivesUnchanged | apache-activemq-5.15.14/webapps-demo/demo/websocket/stomp.js:45-47 | a frame arrives unchanged but for content-length if and only if no header is named __proto__; content-length is there if and only if the body is not empty |
| Stomp.Relay | apache-activemq-5.15.14/webapps-demo/demo/websocket/stomp.js:124-131 | transmitting any list of well-formed frames and unmarshalling what arrived gives them back |
| ForeignFrames.CommandAndHeaders | apache-activemq-5.15.14/webapps-demo/demo/websocket/stomp.js:53-65 | of any text with an empty line the first line is the command and the others are the headers, whatever the body |
| ForeignFrames.LastLineWins | apache-activemq-5.15.14/webapps-demo/demo/websocket/stomp.js:61-65 | a header line sets its header even if an earlier line did, and no other; one named __proto__ sets nothing |
| ForeignFrames.PaddedHeader | apache-activemq-5.15.14/webapps-demo/demo/websocket/stomp.js:57-65 | white space around name and value is dropped, and the value may contain colons |
| ForeignFrames.NoColon | apache-activemq-5.15.14/webapps-demo/demo/websocket/stomp.js:63-64 | a line without a colon is a header with an empty name |
| ForeignFrames.BodyWithoutLength | apache-activemq-5.15.14/webapps-demo/demo/websocket/stomp.js:71-80 | without a content-length the body is everything up to the first NUL, or to the end |
| ForeignFrames.BodyByLength | apache-activemq-5.15.14/webapps-demo/demo/websocket/stomp.js:68-70 | with one, the body is that many characters, or what there is |
| ForeignFrames.BodyByOddLength | apache-activemq-5.15.14/webapps-demo/demo/websocket/stomp.js:68-70 | a content-length that is no number gives the head of the frame as its body, a negative one the end of that head |
| ForeignFrames.ReadPlain | apache-activemq-5.15.14/webapps-demo/demo/websocket/stomp.js:69 | a number ends at the first character that is no digit, which may not be an x |
| ForeignFrames.ReadNegative | apache-activemq-5.15.14/webapps-demo/demo/websocket/stomp.js:69 | a minus sign negates the number |
| ForeignFrames.ReadPositive | apache-activemq-5.15.14/webapps-demo/demo/websocket/stomp.js:69 | a plus sign changes nothing |
| ForeignFrames.ReadHex | apache-activemq-5.15.14/webapps-demo/demo/websocket/stomp.js:69 | after 0x the number is hexadecimal |
| ForeignFrames.ReadNone | apache-activemq-5.15.14/webapps-demo/demo/websocket/stomp.js:69 | a text that starts with neither digit, sign nor space is no number |
| ForeignFrames.NoEmptyLine | apache-activemq-5.15.14/webapps-demo/demo/websocket/stomp.js:53-80 | a text without an empty line is a frame without command and headers whose body lacks the first character |
| ForeignFrames.WithoutNul | apache-activemq-5.15.14/webapps-demo/demo/websocket/stomp.js:84-98 | a last frame whose NUL is missing is parsed all the same |
| ForeignFrames.UncountedRoundTrip | apache-activemq-5.15.14/webapps-demo/demo/websocket/stomp.js:51-82 | a well-formed frame printed without a content-length is parsed back to itself, body included |
| ForeignFrames.UncountedStream | apache-activemq-5.15.14/webapps-demo/demo/websocket/stomp.js:84-98 | so is every stream of such frames, in order, however many LFs follow each NUL |
| ForeignFrames.PrintedForm | apache-activemq-5.15.14/webapps-demo/demo/websocket/stomp.js:35-49 | the printed text of a frame with one header, letter by letter |
| Batching.Amq.SendJmsMessage | apache-activemq-5.15.14/webapps-demo/demo/js/amq.js:172-189 | when idle the message is posted at once, alone and with its headers; otherwise it is queued last |
| Batching.Amq.End | apache-activemq-5.15.14/webapps-demo/demo/js/amq.js:239-271 | the next batch is posted and leaves the queue; with an empty queue the client becomes idle and posts nothing |
| Batching.Partition | apache-activemq-5.15.14/webapps-demo/demo/js/amq.js:241-261 | the loop sends a message with headers alone and only from the front, otherwise all messages without headers, and keeps the rest in order |
| Batching.StepKeepsOrder | apache-activemq-5.15.14/webapps-demo/demo/js/amq.js:248-261 | of each kind, what was posted followed by what is queued stays what was sent, in order |
| Batching.Conserved | apache-activemq-5.15.14/webapps-demo/demo/js/amq.js:241-264 | what was posted and what is queued is together exactly what was sent |
| Batching.EveryRun | apache-activemq-5.15.14/webapps-demo/demo/js/amq.js:172-271 | over every run: an empty queue when idle, both kinds first in first out, messages with headers alone, and none of these before an earlier message |
| Batching.EveryRunConserves | apache-activemq-5.15.14/webapps-demo/demo/js/amq.js:172-271 | over every run no message is lost and none is posted twice |
| Batching.RoundsBound | apache-activemq-5.15.14/webapps-demo/demo/js/amq.js:248-261 | the waiting time of the message at index i is between 1 and i + 1 |
| Batching.WaitIsExact | apache-activemq-5.15.14/webapps-demo/demo/js/amq.js:239-271 | with every endBatch a waiting message comes exactly one round nearer, whatever is sent meanwhile, and is posted in its round |
| Batching.WaitIsBounded | apache-activemq-5.15.14/webapps-demo/demo/js/amq.js:239-271 | a queued message has been posted if and only if its number of endBatch calls has passed, which is at most i + 1 |
| Batching.IdleSendsAtOnce | apache-activemq-5.15.14/webapps-demo/demo/js/amq.js:268-270 | when a post completes and nothing is queued, the next message is posted at once |
| Batching.SentAre | apache-activemq-5.15.14/webapps-demo/demo/js/amq.js:172-189 | over every run the messages are those that were asked for, with their texts and headers, in order |
| Batching.OneOutstanding | apache-activemq-5.15.14/webapps-demo/demo/js/amq.js:172-271 | where endBatch is only called for a completed post, the client is in progress exactly while one post is outstanding, and there is never more than one |
| Batching.AllPosted | apache-activemq-5.15.14/webapps-demo/demo/js/amq.js:172-271 | in such runs, once every post has completed, every message was posted exactly once |
| Batching.Drains | apache-activemq-5.15.14/webapps-demo/demo/js/amq.js:239-271 | if nothing more is sent, the client is idle after as many completed posts as messages were queued, and one more |

## Left out

- Sockets, object streams, ZooKeeper, `awaitNodes`, process launching, JMS notifications, logging and file formats: a request and its reply are one step, a store is a map, and exceptions of these calls do not occur, except that a client may fail to reach its first server.
- Client.KVStore.Request: is stated for clusters in which redirects lead down a ranking to live servers, since the source's loop need not end otherwise; `Redirects` gives the ranking for steady clusters and for the states that `addNode` and `removeNode` go through. A first connection that fails, after which the source throws, is the result None.
- Migration.TransferIsAtomic: excludes puts at the receiver of a key that was already sent; `Handover.KeyAfterVisit` and `Handover.EarlyPut` say what happens to every key without that restriction.
- Coordinator.ECSClient.AddNode: is stated for at least one idle node and Coordinator.ECSClient.RemoveNode for at least two active ones; the source throws otherwise, and its command loop, `Coordinator.ECSClient.Handle`, never gets there.
- A server looks itself up under host 127.0.0.1; the model gives each server the address it is configured with.
- Threads: each served message is atomic. Races inside one call are not modelled.
- Refinement.StepRefines: has addNode and removeNode as single steps. Client requests during a transfer are in `Migration` and `Handover`, those between its end and the broadcast in `Window`, redirects in all these states in `Redirects`.
- Start and stop are not events of the whole-run theorem, which is about started servers; `Coordinator.ECSClient.Switch` covers them for the placement invariant, and `Placement.RefusedIsLost` says what a stopped successor loses.
- Coordinator.ECSClient.constructor: takes the configuration and the attendance list as parameters; errors of reading them are not modelled.
- Coordinator.ECSClient.ShutdownServer: does not model the result of waiting for the process to disappear from ZooKeeper, which the source returns and no caller uses.
- The bulk operations `addNodes` and `removeNodes` of the coordinator's interface: the command loop does not call them.
- The reply codes that the coordinator only prints.
- Crashes of servers, also in the middle of a transfer.
- The value-size limit: the code measures the key a second time instead of the value, so the limit never applies.
- Encryption and authentication of messages; only the agreement on the key is modelled. The random choice of the secrets is a parameter.
- Keys and texts are sequences of characters; the encoding of unpaired surrogates is not modelled, and characters outside the basic plane count as one in STOMP body lengths.
- STOMP header values and bodies that are not strings, heart-beats, subscriptions and acknowledgements.
- Encoding of a batch into one request body, polling, listeners and the errors of the AJAX adapter.
- The caches of the key-value server, which are unimplemented in the source.
