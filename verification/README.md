# Verified model of gogame's server core

gogame is a set of game servers in Go. Clients connect to gates, gates connect to routers, and routers forward messages
between gates, game servers and team servers. This project models the parts of it whose correctness is not visible from
one function body, and proves what they are for:

- **The hash ring** (`RingSpec`, `RingTheorems`, `RingPoints`, `HashRings`, `ImRouting`). A weighted consistent-hash ring, kept as a map
  and a sorted index, and the gate's use of it to choose an IM server. The ring is a function of its node list and
  weights (`Build`); the class fills it in place and searches it. MD5 is a parameter, `digest`, about which nothing is
  assumed: virtual points may collide.
- **The Redis mutex** (`RedisLock`). Any number of clients, any interleaving, failed commands, lost replies, expiry,
  deletion after a timeout, and the caller that unlocks without having locked.
- **The router registry and the gate's tables** (`RouterSpec`, `RouterSync`, `RouterDelivery`, `RouterServer`,
  `GateView`, `ViewConsistency`; departures from intent in `RouterDepartures`, `RouterRuns`, `Continuations`, `FrozenView`).
  The router's event loop, what it pushes to the gates, and the table a gate builds from it, from end to end.
- **Two mutex-and-condition queues** (`WriteQueue`, `EventLoop`). The background writer of a connection and the event
  loop, with Lock, Unlock, Wait and Signal as separate steps.
- **The wire stack** (`BigEndian`, `Packets`, `Messages`, `Framing`), **the receive limit** (`RateLimit`) and **the
  message-id registry** (`RegisterText`, `RegisterLines`, `MsgRegistry`).

Code that updates state in place is a class here, or a method with loops, proved against a specification function of the
old state; the theorems are about those functions. Concurrent code is a state machine whose steps are its atomic
actions, and theorems are about every run of it.

Findings, where the code does not do what it seems to intend. Each is modelled as the code has it, with the exact
condition as a lemma, and a run or an input that meets it:

- The router removes a client by id alone, so the late close of a replaced session removes its replacement
  (`CloseDropsReplacementIff`, `CloseDropsServerIff`). A gate that is connected and writable then misses the next change,
  until it says READY again (`StrandedRun`); a game server that is connected is hidden from all gates (`HiddenServerRun`).
- A repeated READY closes the session it arrives on (`ReadyClosesSelfIff`, `ServerReadyClosesSelfIff`,
  `RepeatedReadyRun`), and the gate does repeat it. From then on nothing reaches the gate on that connection, and its view
  stays what it is while the router's sets move on (`ShutForGood`, `ViewFrozenForGood`, `FrozenRun`).
- A close unregisters only the client that the session was bound to last, and only if the session is verified
  (`CloseFreesBound`). Slots stay behind when the verification timer had ended before READY, and when the session has said
  READY under several ids or as several kinds (`PortalLeavesNothingIff`, `ServerLeavesNothingIff`; runs `UnverifiedRun`,
  `UnverifiedServerRun`, `TwoIdPortalRun`, `TwoKindServerRun`). They stay until another READY claims the id
  (`StaleForGood`).
- The gate compares 32-bit ids with 16-bit keys. With the ids of this repository's router this makes no difference
  (`NarrowIdsExact`); a router that listed wider ids could have a server reported closed that it lists
  (`GoneIsDroppedIff`, `WideIdReportedClosed`).
- IM servers whose ids share sixteen bits share an entry (`OwnEntryIff`, `TwinTakesEntry`).
- An expiry, a deletion after 150 tries, a lost DECR reply or an unlock without a lock is enough to give the lock to two
  clients, and nothing else is (`ExclusiveIff`, `StepBreaksExclusionIff`). A lost INCR reply or an abandoned DECR is enough
  to lock everybody out, and nothing else is (`LeavesFreeIff`), until a client has tried 150 times (`StuckLockHeals`).
- `CSMessage.Marshal` returns an empty buffer for every message (`MarshalLosesMessage`).
- The codec cuts a length to 32 bits before it checks it (`AcceptedRoundTripIff`, `HugeBufferLost`); `WriteBytes` cuts it to 16
  (`BlockRoundTrip`).
- A doc comment of several lines makes the written register file unreadable from there on, and ids move at the next
  run (`ReadsBackIff`, `WrittenReadsBackIff`, `TwoLineCommentMovesIds`).
- `RunInLoop` accepts functors that never run: those appended after `Loop` has taken its last batch (`StrandedIff`,
  `StrandedRun`).
- `GetNodes` with size 0 returns every owner together with false (`Replicas`, which `GetNodes` is proved to return).

## Model

| member | source | states |
|---|---|---|
| HashRings.SearchAbove | base/util/hashring.go:128 | The binary search finds the only index that splits the sorted keys at h. |
| HashRings.HashRing.NewHashring | base/util/hashring.go:24-33 | The ring built in place is the function `Build` of the nodes with unit weights, and is well built. |
| HashRings.HashRing.NewHashringWithWeights | base/util/hashring.go:35-48 | The nodes are some listing of the weights' keys, each once, and the ring is `Build` of them. |
| HashRings.HashRing.GenerateCircle | base/util/hashring.go:77-110 | The nested loops that overwrite and append leave exactly the last-writer ring and the sorted multiset of all generated keys. |
| HashRings.HashRing.PlaceNodes | base/util/hashring.go:87-107 | Ring and index are those of the nodes' blocks in node order. |
| HashRings.HashRing.PlacePoints | base/util/hashring.go:96-106 | A node claims the keys of all its virtual points and appends them. |
| HashRings.HashRing.PlaceTriple | base/util/hashring.go:97-105 | The three keys cut from one digest are claimed and appended in order. |
| HashRings.HashRing.GetNodePos | base/util/hashring.go:120-136 | Fails exactly on an empty ring, which with positive weights is one without nodes; else reading the index from the returned position around gives the full clockwise turn from the key. |
| HashRings.HashRing.GetNode | base/util/hashring.go:112-118 | Answers the owner of the least point strictly above the key's hash, wrapping; succeeds exactly if the ring has a point, which with positive weights means a node. |
| HashRings.HashRing.GetNodes | base/util/hashring.go:143-170 | Answers `Replicas` of the clockwise walk, for every size, 0 and too large ones included. |
| HashRings.HashRing.Collect | base/util/hashring.go:153-169 | The walk with its set of returned owners yields the distinct owners that it meets, in order, cut at size. |
| HashRings.HashRing.UpdateWithWeights | base/util/hashring.go:54-75 | Unchanged weights leave the whole ring as it is; others rebuild it over the new weights' keys. |
| HashRings.HashRing.AddNode | base/util/hashring.go:172-174 | Same as adding with weight 1. |
| HashRings.HashRing.AddWeightedNode | base/util/hashring.go:176-205 | Returns the ring with one more node, or this ring if the node is known or the weight is not positive. |
| HashRings.HashRing.UpdateWeightedNode | base/util/hashring.go:207-234 | Returns the ring with a recorded weight changed, or this ring if nothing changes. |
| HashRings.HashRing.RemoveNode | base/util/hashring.go:235-263 | Returns the ring without any occurrence of the node, or this ring if there is none. |
| RingPoints.PointNamesDiffer | base/util/hashring.go:97 | Different virtual points have different names, over all nodes. |
| RingPoints.PointKeysIff | base/util/hashring.go:101-102 | The three keys of a point are the first twelve bytes of its digest: two points share all three exactly if they share these. |
| RingPoints.HashValBytes | base/util/hashring.go:265-270 | A key is read least byte first. |
| RingPoints.KeyOfPoint | base/util/hashring.go:138-141 | A lookup under a point's name hashes to that point's first key. |
| RingPoints.NextIsStrict | base/util/hashring.go:128 | A key that hashes to a point belongs to the next point, unless there is no other. |
| RingPoints.SharesOfRing | base/util/hashring.go:87-107 | If no two points collide each node owns exactly three keys for each of its points, and the ring has no others. |
| RingPoints.UniformSharesOfRing | base/util/hashring.go:87-107 | A uniform ring of n nodes then has 120n keys, 120 of them owned by each node. |
| RingPoints.FactorIsShare | base/util/hashring.go:88-94 | A node's number of points is its weighted share of 40 points per node, rounded down. |
| RingPoints.TotalIsSum | base/util/hashring.go:78-85 | The total adds up the recorded weights, 1 for a node without one. |
| RingPoints.ChangesIff | base/util/hashring.go:176-263 | Adding changes the ring exactly for an absent node and a positive weight, reweighting exactly for a recorded weight that differs from the positive new one, removing exactly for a node that is there; and how nodes and weights change. |
| RingSpec.RingOwner | base/util/hashring.go:102-104 | Exactly the generated keys are on the ring, each owned by the last node that generates it, collisions included. |
| RingSpec.RingKeys | base/util/hashring.go:101-109 | The index has exactly the keys of the ring. |
| RingSpec.ClockwiseFirst | base/util/hashring.go:128-135 | Search position and wrap-around find the least key above h, or the least key of all. |
| RingSpec.TurnFirst | base/util/hashring.go:120-136 | A turn around the index starts at the naively defined next point. |
| RingSpec.WalkFirst | base/util/hashring.go:112-118 | The owner list starts with the owner that a single lookup returns. |
| RingSpec.WalkLists | base/util/hashring.go:153-167 | The full walk lists every owner on the ring exactly once. |
| RingSpec.WalkOrder | base/util/hashring.go:157-163 | Owners come in clockwise order: the earlier one has a point nearer than every point of the later one. |
| RingTheorems.OperationsKeepWellBuilt | base/util/hashring.go:176-263 | Adding, reweighting and removing keep the ring equal to the build of its own nodes and weights. |
| RingTheorems.AddRemoveRestores | base/util/hashring.go:176-263 | Adding an absent node with any positive weight and removing it restores nodes, weights, ring and index exactly. |
| RingTheorems.ReweightRestores | base/util/hashring.go:207-234 | Changing a weight and changing it back restores everything exactly, if and only if the old weight was positive. |
| RingTheorems.FactorTotal | base/util/hashring.go:78-96 | For any positive weights, n nodes get between 39n + 1 and 40n virtual points. |
| RingTheorems.PointCount | base/util/hashring.go:93-106 | The index holds between 117n + 3 and 120n keys; the ring is empty exactly without nodes. |
| RingTheorems.UniformShares | base/util/hashring.go:93-94 | Equal weights give every node exactly 40 points. |
| RingTheorems.ClaimMoves | base/util/hashring.go:103 | Claiming further points moves exactly the keys that meet one of them first. |
| RingTheorems.AddMovesOnlyToNew | base/util/hashring.go:172-205 | On a uniform ring a new node takes exactly the keys that meet its points first; every other key keeps its owner, even under collisions. |
| RingTheorems.KeepOwners | base/util/hashring.go:237-241 | Dropping one node's blocks keeps every point that another node owns. |
| RingTheorems.RemoveKeepsOthers | base/util/hashring.go:235-263 | On a uniform ring every key not owned by the removed node keeps its owner, even under collisions. |
| RingTheorems.WalkDrop | base/util/hashring.go:153-167 | Erasing a new, non-colliding node from the new walk gives the old walk. |
| RingTheorems.ReplicaStability | base/util/hashring.go:143-205 | Erasing the new node from a new replica list leaves a prefix of the old list, short of at most one entry, for every key and size. |
| RingTheorems.ReplicasDrop | base/util/hashring.go:149-169 | The same for the size cut alone, for any walk. |
| RingTheorems.OwnersAreNodes | base/util/hashring.go:87-107 | The owners on a built ring are among its nodes, and no more than these. |
| RingTheorems.ReplicasByWalk | base/util/hashring.go:149-169 | On any built ring replica requests succeed exactly for sizes from 1 to the number of owners; shorter ones are prefixes of longer ones. |
| RingTheorems.ReplicasExact | base/util/hashring.go:149-169 | How much of the walk is answered for every size: nothing above the node count, all of it for size 0. |
| ImRouting.IMMgr.GetIMByAccountID | gamegate/imclient.go:61-76 | Once any server was found every account gets an entry with sixteen bits of the id of the server its key is routed to, nil exactly before that; it is that server's own entry exactly if no server started later shares those bits. |
| ImRouting.OwnEntryIff | gamegate/imclient.go:114-116 | Under a server's sixteen bits stands its own entry exactly if no later start shares them, and otherwise that of a later start. |
| ImRouting.TwinTakesEntry | gamegate/imclient.go:114-116 | Servers 1 and 65537 share an entry: the later takes it over. |
| ImRouting.IMMgr.StartServers | gamegate/imclient.go:108-120 | Exactly the unknown servers are started, each once, at its listed address, and the entries are those of the last starts. |
| ImRouting.IMMgr.StartServer | gamegate/imclient.go:112-117 | A new entry with sixteen bits of the id and the address replaces what stood under these bits. |
| ImRouting.IMMgr.CreateRing | gamegate/imclient.go:121-128 | The first servers found make a unit-weight ring whose nodes are their decimal ids. |
| ImRouting.IMMgr.RecordServers | gamegate/imclient.go:123-127 | The recorded servers are exactly the new ones, and each gets weight 1 under its decimal id. |
| ImRouting.IMMgr.ExtendRing | gamegate/imclient.go:129-137 | Servers added one by one keep that form, and keys move only to them. |
| ImRouting.IMMgr.AddServer | gamegate/imclient.go:132-135 | One more server on the ring and in the table; keys move only to it. |
| ImRouting.IMMgr.RefreshIMSvrList | gamegate/imclient.go:108-138 | One refresh adds exactly the unknown servers, each with an entry at its listed address; every key keeps its server or moves to one of those. |
| ImRouting.IMMgr.RunRefreshes | gamegate/imclient.go:85-139 | Over any sequence of refreshes the ring covers exactly the servers ever found, and keys move only to servers found on the way. |
| ImRouting.OwnerIsServer | gamegate/imclient.go:69-75 | Every key is routed to one of the known servers. |
| ImRouting.AccountsDiffer | gamegate/imclient.go:69 | Different accounts are hashed under different names. |
| ImRouting.RingOfOneMore | gamegate/imclient.go:133-134 | Adding a server keeps the unit-weight ring and moves keys only to it. |
| ImRouting.FirstRingMoves | gamegate/imclient.go:123-128 | The first ring routes every key to one of its servers. |
| ImRouting.MovesChain | gamegate/imclient.go:130-136 | Successive moves compose. |
| Numerals.ParseDigits | protocol/cmd/main.go:83 | Parsing a printed numeral below the limit gives the number back, in both bases. |
| Numerals.AtoiOfItoa | gamegate/imclient.go:69-74 | Parsing the decimal name of any 64-bit id gives the id back. |
| RedisLock.StepKeepsInv | base/dao/redis/redismutex.go:88-143 | Every step keeps the counter within what clients owe and failed commands leaked, and exact while nothing reset it. |
| RedisLock.RunKeepsInv | base/dao/redis/redismutex.go:88-143 | So does every run of any number of clients. |
| RedisLock.MutualExclusion | base/dao/redis/redismutex.go:88-143 | In every run without expiry, deletion after a timeout, lost DECR reply or unowned unlock at most one client holds the lock, also if INCRs fail or are repeated. |
| RedisLock.CleanRunCounts | base/dao/redis/redismutex.go:88-143 | Without timeout, expiry or failure the counter is holders plus clients between INCR and compensating DECR, and the clear in UnLock never fires. |
| RedisLock.ExclusiveIff | base/dao/redis/redismutex.go:88-143 | Every run with irregularities of given kinds only is exclusive, exactly if the kinds include no expiry, no deletion after a timeout, no lost DECR reply and no unlock without a lock; clearing a negative counter does no harm by itself. |
| RedisLock.StepBreaksExclusionIff | base/dao/redis/redismutex.go:94-109 | A step breaks exclusion exactly if it is an answered INCR that finds the counter at zero or below while another client holds the lock. |
| RedisLock.ExpiryBreaks | base/dao/redis/redismutex.go:81 | A run with one expiry and nothing else irregular gives the lock to two clients. |
| RedisLock.TimeoutBreaks | base/dao/redis/redismutex.go:112-118 | So does a run with every command answered in which a client tries 150 times while another holds the lock. |
| RedisLock.LostReplyBreaks | base/dao/redis/redismutex.go:59-64 | So does a run with one lost DECR reply: the client repeats the DECR. |
| RedisLock.UnownedUnlockBreaks | base/dao/redis/redis.go:104-115 | So does a run in which one caller unlocks after its Lock failed. |
| RedisLock.NoLockout | base/dao/redis/redismutex.go:88-143 | After any run whose clients are all done and whose failures leaked nothing, timeouts, expiry and unowned unlocks included, the next Lock succeeds on its first INCR. |
| RedisLock.LeavesFreeIff | base/dao/redis/redismutex.go:88-143 | Every run with irregularities of given kinds only leaves the lock free once all clients are done, exactly if the kinds include no lost INCR reply and no abandoned DECR. |
| RedisLock.FirstTrySucceedsIff | base/dao/redis/redismutex.go:94-109 | Among idle clients the first INCR succeeds exactly if the counter is not above zero. |
| RedisLock.TriesFail | base/dao/redis/redismutex.go:93-112 | On a stuck counter any number of tries up to 150 fails and leaves the counter as it was. |
| RedisLock.StuckLockHeals | base/dao/redis/redismutex.go:93-118 | A client alone with a stuck counter deletes it after 150 tries. |
| RedisLock.World.Wrapped | base/dao/redis/redismutex.go:55-86 | A command is sent up to five times, amid arbitrary steps of others, and ends answered or given up. |
| RedisLock.World.Lock | base/dao/redis/redismutex.go:88-118 | The retry loop follows the client's phases; if it succeeds undisturbed nobody else holds the lock. |
| RedisLock.UnlockCounts | base/dao/redis/redismutex.go:126-133 | An owner's answered DECR takes one off a positive counter; at zero or below it goes on to delete the key, and the counter is zero. |
| RedisLock.DeletionZeroes | base/dao/redis/redismutex.go:25-37 | A deletion that reaches Redis leaves the counter at zero, answered or not. |
| RedisLock.UnlockRestores | base/dao/redis/redismutex.go:120-143 | An owner that unlocks among idle clients, even after its key expired, leaves a lock that exactly one of the next two gets. |
| RedisLock.World.UnLock | base/dao/redis/redismutex.go:120-143 | The client ends idle and reports success exactly if its DECR was answered; once the clear was answered as well the counter is zero. |
| RedisLock.World.RemoveUserLoc | base/dao/redis/redis.go:103-117 | The caller enters the section whether or not Lock succeeded, and unlocks in either case, owning the lock exactly if it got it. |
| RouterServer.Server.AddPortalClient | router/server.go:101-109 | A slot that is taken over closes its former client's session. |
| RouterServer.Server.RemovePortalClient | router/server.go:111-117 | The slot is emptied whoever sits in it. |
| RouterServer.Server.AddGameClient | router/server.go:125-133 | The same for game servers. |
| RouterServer.Server.RemoveGameClient | router/server.go:135-141 | The same for game servers. |
| RouterServer.Server.AddTeamClient | router/server.go:149-157 | The same for team servers. |
| RouterServer.Server.RemoveTeamClient | router/server.go:159-165 | The same for team servers. |
| RouterServer.Server.CollectIds | router/server.go:174-177 | The loop collects the stored ids of all clients, each slot once, in some order. |
| RouterServer.Server.PackGameMessage | router/server.go:173-202 | A SYNC from the router that names each registered game server once, in some order. |
| RouterServer.Server.PackTeamMessage | router/server.go:204-234 | A SYNC from the router that names each registered team server once, in some order. |
| RouterServer.Server.BroadcastTo | router/server.go:235-251 | Every client of a map is sent the message once, in whatever order the map is visited. |
| RouterServer.Server.InternalHandleReady | router/internal.go:134-170 | Registers a game or team server and pushes the new set to every portal. |
| RouterServer.Server.InternalHandleClosed | router/internal.go:67-102 | Unregisters it, if verified and bound, and pushes the new set. |
| RouterServer.Server.InternalHandleMsg | router/internal.go:180-199 | Forwards to one portal or to all. |
| RouterServer.Server.PortalHandleReady | router/portal.go:113-136 | Registers the portal and sends it both sets. |
| RouterServer.Server.PortalHandleClosed | router/portal.go:69-79 | Unregisters by id, if verified and bound. |
| RouterServer.Server.PortalHandleMsg | router/portal.go:146-188 | Forwards to one or all servers of the named type. |
| RouterServer.Server.HandleVerifyMsg | router/internal.go:120-132 | Echoes, closes or forwards on behalf of the bound client. |
| RouterServer.Server.HandleMessage | router/internal.go:104-118 | The handler is the specified event, and keeps the sync invariant; the portal side, router/portal.go:81-97, alike. |
| RouterServer.Server.HandleClosed | router/internal.go:50-54 | The handler is the specified event, and keeps the sync invariant. |
| RouterDelivery.MessageDelivered | router/internal.go:120-199 | Session by session, what a verified and bound session's message adds to every queue: by key to the holder of that slot and to no other, broadcast once per slot, a heartbeat to its sender, anything else to nobody; for portals, games and teams. |
| RouterDelivery.RelayRelays | router/portal.go:151-184 | The same for one map of clients. |
| RouterDelivery.StrangerIgnored | router/internal.go:109-117 | A session that is not verified or not bound is ignored but for its READY. |
| RouterDelivery.ClosedIsMute | router/internal.go:67-75 | Once its close was handled, a verified session is ignored but for its READY. |
| RouterDelivery.PushSends | router/internal.go:145-150 | A push adds the new set to every session's queue once per portal slot, and nothing else. |
| RouterDelivery.PackSays | router/server.go:189-200 | The head of a SYNC, its type, and a list of exactly the registered ids. |
| RouterDelivery.PortalReadySends | router/portal.go:116-134 | A portal's READY sends it the game set and then the team set, unless it has shut its own session, and nobody else anything. |
| RouterDelivery.ShutIff | base/network/session/session.go:65-88 | A session is shut exactly by a write error, its pending timer, its own DISCONNECT, or a READY under an id whose slot it holds, and never opened again. |
| RouterDelivery.VerifiedNeverTimesOut | base/network/session/session.go:51-59 | In every run a verified session has stopped its timer. |
| RouterSync.StepKeepsInv | router/internal.go:67-199 | Every event keeps stored clients matching their slots, and every registered writable portal told the current sets. |
| RouterSync.RouterSync | router/server.go:101-251 | In every run the last SYNC of each type queued to a registered writable portal lists exactly the registered servers, and nothing forwarded or echoed passes for a SYNC. |
| RouterSync.PackNames | router/server.go:173-202 | What is packed names exactly the keys of the map, each once. |
| RouterSync.VerifiedQuiet | router/internal.go:172-199 | Echoing, closing and forwarding send no SYNC and register nobody. |
| RouterDepartures.CloseDropsReplacementIff | router/portal.go:69-79 | A close unregisters another session's portal exactly if its own slot was taken over. |
| RouterDepartures.CloseDropsServerIff | router/internal.go:67-102 | The same for game servers and for team servers. |
| RouterDepartures.LateCloseHidesServer | router/server.go:135-141 | After the late close of a game server's former session every registered writable portal is told a set without that server, whose present session is untouched. |
| RouterRuns.HiddenServerRun | router/internal.go:134-170 | A run from the start in which game server 7 is connected and bound, and portal 5 is told that it is not there. |
| RouterDepartures.ReadyClosesSelfIff | router/server.go:103-107 | After its READY a portal is writable exactly if it was and its slot was not already its own. |
| RouterDepartures.ServerReadyClosesSelfIff | router/server.go:127-131 | The same for game servers and for team servers. |
| RouterRuns.RepeatedReadyRun | gamegate/router.go:176-182 | A run in which a portal says READY twice under its id: it is registered, and shut. |
| Continuations.ShutForGood | base/network/session/session.go:82-88 | In every continuation a session that is shut stays shut and is sent nothing more. |
| FrozenView.ViewFrozenForGood | gamegate/router.go:149-161 | In every continuation the view of a gate whose session is shut, and that has received all it was sent, stays what it is. |
| FrozenView.FrozenRun | gamegate/router.go:176-182 | A run of router and gate in which portal 7 repeats its READY: it is registered and has received everything, a game server has joined, and its view has none. |
| RouterDepartures.CloseFreesBound | router/portal.go:69-79 | In any state a close takes from the session's slots exactly that of the client it is bound to, if verified, in all three maps. |
| RouterDepartures.CloseLeavesNothingIff | router/internal.go:67-102 | In any state a close leaves the session no slot exactly if each of its slots is the bound one. |
| RouterDepartures.PortalLeavesNothingIff | router/portal.go:113-136 | After a portal's READY its close leaves it no slot exactly if it was verified or its timer was pending, and it held no slot under another id; the slot of this READY stays exactly if it was not verified and its timer had ended. |
| RouterDepartures.ServerLeavesNothingIff | router/internal.go:134-170 | The same for game and team servers, whose sessions can hold slots in both maps. |
| RouterRuns.UnverifiedRun | base/network/session/session.go:51-59 | A run from the start in which a portal's timer fires while its READY waits, and it is still registered after its close. |
| RouterRuns.UnverifiedServerRun | router/internal.go:134-143 | The same for a game server. |
| RouterRuns.TwoIdPortalRun | router/portal.go:113-119 | A run in which a portal, verified in time, says READY as 7 and as 8 and closes: slot 7 stays with its session. |
| RouterRuns.TwoKindServerRun | router/internal.go:134-160 | A run in which a server says READY as game server 7 and team server 9 and closes: game slot 7 stays, and a portal stays told of it. |
| Continuations.StaleForGood | router/server.go:111-171 | In every continuation in which the session does nothing more and no READY claims the id, a slot left behind stays with its session. |
| RouterDepartures.LateCloseStrandsPortal | router/server.go:111-117 | After the late close of its predecessor a writable portal misses the next game server. |
| RouterRuns.StrandedRun | router/portal.go:113-136 | A run from the start in which that happens. |
| GateView.RouterMgr.AddCrossRouterServer | gamegate/router.go:202-225 | The router's team entries are replaced by the listed ones; `teamIds` lists each key once. |
| GateView.RouterMgr.AddRouterServer | gamegate/router.go:226-248 | The router's game entries are replaced, and ServerClose is raised once for each that it had and no longer lists. |
| GateView.RouterMgr.RemoveSvrs | gamegate/router.go:249-270 | Exactly the router's entries go, from both tables; `teamIds` stays exact. |
| GateView.RouterMgr.Sync | gamegate/router.go:149-161 | The server type decides which table is replaced; the other is untouched. |
| GateView.ReplaceOwns | gamegate/router.go:208-216 | Afterwards the router's servers are exactly the listed ones, and other routers lose only listed ids. |
| GateView.GoneIsDroppedIff | gamegate/router.go:231-246 | The closed servers are exactly those the SYNC drops, if and only if every listed id that leads to a server the router already had is that server's own 16-bit id. |
| GateView.NarrowIdsExact | gamegate/router.go:231-246 | So they are for every list that this repository's router sends. |
| GateView.WideIdReportedClosed | gamegate/router.go:238-245 | A router that listed id 65537 would have server 1 reported closed while it lists it. |
| GateView.DropRouter | gamegate/router.go:231-236 | Deleting while ranging removes exactly the router's entries and lists each once. |
| GateView.KeepOthers | gamegate/router.go:259-267 | The loop that deletes and lists leaves the others' entries and lists their keys once. |
| GateView.InsertAll | gamegate/router.go:237-239 | All listed ids, cut to sixteen bits, lead to the router. |
| GateView.ListKeys | gamegate/router.go:217-221 | The loop lists every key of the table exactly once. |
| ViewConsistency.EventAppends | router/internal.go:67-170 | Whatever the router does next, every SYNC it sends names the sets it then has. |
| ViewConsistency.StepKeepsView | gamegate/router.go:149-161 | Every step of router, connection and gate keeps the gate's view equal to the router's set at an event, and that event never goes back. |
| ViewConsistency.ViewIsSomePastSet | gamegate/router.go:202-248 | In every run, from the first SYNC on, the gate's view of a router is that router's set after some earlier event. |
| ViewConsistency.DrainedViewIsCurrent | router/portal.go:113-136 | If the portal is registered and writable and its messages have arrived, the view is the current set. |
| ViewConsistency.ClosesExactlyDropped | gamegate/router.go:242-246 | ServerClose is raised for exactly the servers dropped between the two SYNCs. |
| ViewConsistency.DeliverView | gamegate/router.go:226-240 | A delivered SYNC replaces the view by the sets of its event; any other message leaves it. |
| WriteQueue.RunKeepsInv | base/network/tcpconnection.go:97-174 | All invariants below hold in every interleaving. |
| WriteQueue.LockProtects | base/network/tcpconnection.go:134-174 | While a thread holds the mutex no other one changes the queue or the flag. |
| WriteQueue.StepKeepsWakeup | base/network/tcpconnection.go:113-172 | A writer asleep with work, or asleep after closing, is owed a Signal, although Send signals after unlocking. |
| WriteQueue.NeverStuckWithWork | base/network/tcpconnection.go:113-172 | When no Signal is owed a sleeping writer has nothing to do. |
| WriteQueue.WritesInOrder | base/network/tcpconnection.go:97-174 | Written, in-flight and queued buffers are together, in order and each call once, those of the calls that got past the closed check, which are about to signal or have returned true; a call that returned false is not among them. |
| WriteQueue.CleanEndWritesAll | base/network/tcpconnection.go:110-131 | A writer that ends without error has written and flushed everything ever queued. |
| WriteQueue.ErrorWritesPrefix | base/network/tcpconnection.go:121-130 | In every state, so after an error as well, what was written, and what of it left the buffer, is a prefix of what was queued. |
| WriteQueue.ShutdownCloses | base/network/tcpconnection.go:134-143 | In every run the connection is closed once any Shutdown has taken effect. |
| WriteQueue.ClosedSendsRefused | base/network/tcpconnection.go:163-168 | A Send that had not got past the check when the connection was closed never queues anything and returns false. |
| WriteQueue.SendAfterShutdown | base/network/tcpconnection.go:163-168 | Every Send that begins after a Shutdown has returned returns false. |
| WriteQueue.OpenSendsAccepted | base/network/tcpconnection.go:163-173 | A Send returns false only on a closed connection. |
| WriteQueue.TakesWork | base/network/tcpconnection.go:114-118 | The writer goes on without a buffer only because the connection is closed. |
| WriteQueue.ShutdownEndsWritten | base/network/tcpconnection.go:97-143 | In any run in which a Shutdown has returned and no running thread can step, the writer has ended, and without a write error everything queued is written and flushed. |
| WriteQueue.ClosedWriterAdvances | base/network/tcpconnection.go:110-131 | On a closed connection the writer's steps lower a rank that no other thread's step raises. |
| WriteQueue.ClosedRunsEnd | base/network/tcpconnection.go:97-174 | In any run, from the moment the connection is closed, the writer takes boundedly many steps, and all threads together boundedly many for each further call. |
| WriteQueue.ClosedNeverStuck | base/network/tcpconnection.go:97-143 | Until the writer has ended, it or a call under way can take a step. |
| WriteQueue.ClosedEndsWritten | base/network/tcpconnection.go:97-143 | When no thread can take a step the writer has ended, and without a write error everything queued is written. |
| EventLoop.RunKeepsInv | base/eventloop/eventloop.go:22-69 | All invariants below hold in every interleaving, with functors that call RunInLoop and Close. |
| EventLoop.LockProtects | base/eventloop/eventloop.go:22-69 | While a thread holds the mutex no other one changes the queue or the flag. |
| EventLoop.StepKeepsWakeup | base/eventloop/eventloop.go:26-68 | A loop asleep with work, or asleep after Close, is owed a Signal. |
| EventLoop.NeverStuckWithWork | base/eventloop/eventloop.go:26-68 | When no Signal is owed a sleeping loop has no functor and is not closed. |
| EventLoop.RunsInOrderOnce | base/eventloop/eventloop.go:30-49 | Functors start in the order in which they were appended, none twice; the running one is the last started. |
| EventLoop.MarkCountsEarlier | base/eventloop/eventloop.go:59-69 | Close takes effect once, after everything that was appended while the loop was open. |
| EventLoop.DrainsBeforeReturn | base/eventloop/eventloop.go:22-69 | When Loop has returned, everything appended before Close took effect has run. |
| EventLoop.CloseCloses | base/eventloop/eventloop.go:59-69 | In every run the loop is closed once any Close has taken effect. |
| EventLoop.TakesWork | base/eventloop/eventloop.go:27-31 | The loop goes on without a functor only because it is closed. |
| EventLoop.CloseEndsLoop | base/eventloop/eventloop.go:22-69 | In any run in which a Close has returned and neither the loop nor a call can step, Loop has returned. |
| EventLoop.LastTake | base/eventloop/eventloop.go:26-32 | A loop on its last batch took it at one step of the run that saw the closed flag, and it has run or will run exactly what had been appended by then. |
| EventLoop.StrandedIff | base/eventloop/eventloop.go:22-49 | When Loop has returned, a functor has run exactly if it was appended before the last batch was taken; the others are still queued. |
| EventLoop.StrandedRun | base/eventloop/eventloop.go:43-49 | A run in which RunInLoop returns and Loop returns without running the functor. |
| EventLoop.ClosedRunsEnd | base/eventloop/eventloop.go:22-69 | In any run, after Close, the loop and all calls together take boundedly many steps for each further call, from outside or from a functor. |
| EventLoop.LastBatchEnds | base/eventloop/eventloop.go:34-39 | From its last batch on, the loop's own steps are bounded outright, whatever calls are made. |
| EventLoop.ClosedNeverStuck | base/eventloop/eventloop.go:22-69 | Until Loop returns, it or a call under way can take a step: no functor deadlocks by calling RunInLoop or Close. |
| EventLoop.ClosedEndsReturned | base/eventloop/eventloop.go:37-39 | When none of them can take a step Loop has returned. |
| BigEndian.ValueOfEncode | protocol/packet.go:246-272 | A number that fits its width is read back. |
| BigEndian.EncodeOfValue | protocol/packet.go:101-178 | Bytes that were read are written back. |
| Packets.Packet.ReadByte | protocol/packet.go:38-47 | The next byte, or an error at the end, with the position unchanged. |
| Packets.Packet.ReadBool | protocol/packet.go:28-36 | True exactly for the byte 1. |
| Packets.Packet.ReadS8 | protocol/packet.go:94-99 | The signed value of the next byte. |
| Packets.Packet.ReadU16 | protocol/packet.go:101-111 | The big-endian number in the next two bytes, or an error that moves nothing. |
| Packets.Packet.ReadS16 | protocol/packet.go:113-118 | Its signed value. |
| Packets.Packet.ReadU24 | protocol/packet.go:120-130 | The same for three bytes. |
| Packets.Packet.ReadS24 | protocol/packet.go:132-137 | The same, and never negative. |
| Packets.Packet.ReadU32 | protocol/packet.go:139-149 | The same for four bytes. |
| Packets.Packet.ReadS32 | protocol/packet.go:151-156 | Its signed value. |
| Packets.Packet.ReadU64 | protocol/packet.go:158-171 | The shifting loop yields the big-endian number in the next eight bytes. |
| Packets.Packet.ReadS64 | protocol/packet.go:173-178 | Its signed value. |
| Packets.Packet.ReadBytes | protocol/packet.go:49-63 | The block behind a two-byte length; a block that is cut short fails with the length consumed. ReadString, lines 76-92, is the same on bytes. |
| Packets.Packet.ReadRestBytes | protocol/packet.go:65-74 | Everything behind the position; fails exactly on a packet without data, and overshoots the end. |
| Packets.Packet.WriteZeros | protocol/packet.go:209-213 | Appends n zeros, none for a negative n. |
| Packets.Packet.WriteBool | protocol/packet.go:215-221 | Appends the byte 1 or 0. |
| Packets.Packet.WriteByte | protocol/packet.go:223-225 | Appends the byte. |
| Packets.Packet.WriteS8 | protocol/packet.go:242-244 | Appends the two's complement of a signed byte. |
| Packets.Packet.WriteU16 | protocol/packet.go:246-248 | Appends the big-endian form of two bytes. |
| Packets.Packet.WriteS16 | protocol/packet.go:250-252 | Appends the two's complement in two bytes. |
| Packets.Packet.WriteU24 | protocol/packet.go:254-256 | Appends the low three bytes. |
| Packets.Packet.WriteU32 | protocol/packet.go:258-260 | Appends the big-endian form of four bytes. |
| Packets.Packet.WriteS32 | protocol/packet.go:262-264 | Appends the two's complement in four bytes. |
| Packets.Packet.WriteU64 | protocol/packet.go:266-268 | Appends the big-endian form of eight bytes. |
| Packets.Packet.WriteS64 | protocol/packet.go:270-272 | Appends the two's complement in eight bytes. |
| Packets.Packet.WriteBytes | protocol/packet.go:227-230 | Appends the length modulo 65536 and the bytes. WriteString, lines 236-240, is the same on bytes. |
| Packets.NumberRoundTrip | protocol/packet.go:94-272 | Numbers of every width are read back, signed and unsigned, whatever stands around them. |
| Packets.ThreeByteRoundTrip | protocol/packet.go:120-130 | A 32-bit number written in three bytes is read back modulo 2 to the 24. |
| Packets.BlockRoundTrip | protocol/packet.go:227-230 | A block is read back exactly if it is shorter than 65536 bytes; of a longer one, its first bytes up to the wrapped length. |
| Messages.SSMessageBody.Marshal | protocol/packet.go:362-371 | The bytes are the fields in order, big-endian, and the body. |
| Messages.SSMessageBody.UnMarshal | protocol/packet.go:373-401 | Succeeds exactly on at least 24 bytes; on fewer, the fields before the cut are read, the cut one is zeroed, the rest keep their values. |
| Messages.BodyRoundTrip | protocol/packet.go:362-401 | Unmarshalling what was marshalled gives every field back, whatever the receiver held. |
| Messages.BodyReMarshals | protocol/packet.go:362-401 | Any input of at least 24 bytes re-marshals to itself. |
| Messages.BodyLayout | protocol/packet.go:364-369 | Each field stands big-endian at its offset, and the body from 24 on. |
| Messages.PackSSMessage | protocol/packet.go:420-430 | The eight head bytes, then the body. |
| Messages.HeadRoundTrip | protocol/packet.go:403-430 | A buffer unpacks to m exactly if m packs to it; exactly buffers of at least eight bytes unpack. |
| Messages.HeadLayout | protocol/packet.go:421-427 | Each field of the head stands at its offset. |
| Messages.CSMessage.Marshal | protocol/packet.go:307-315 | The result is empty, for every message. |
| Messages.CSMessage.UnMarshal | protocol/packet.go:317-337 | Succeeds exactly on at least eight bytes, with the fields as they stand. |
| Messages.ClientRoundTrip | protocol/packet.go:307-337 | UnMarshal is inverse to what Marshal writes into its writer. |
| Messages.ClientLayout | protocol/packet.go:310-313 | Each field stands at its offset in what Marshal writes. |
| Messages.MarshalLosesMessage | protocol/packet.go:307-337 | Reading back what Marshal returned fails for every message. |
| Framing.Reader.ReadFull | base/network/session/codec.go:26-39 | Over chunks of any sizes, takes the first n bytes; on a shorter stream fails having taken everything. |
| Framing.SessionCodec.Read | base/network/session/codec.go:24-41 | Returns the first frame and leaves what follows; fails on a cut or oversized one. |
| Framing.SessionCodec.Write | base/network/session/codec.go:43-60 | Sends length and bytes, or nothing if the length, cut to 32 bits, is above 1 MB. |
| Framing.SessionCodec.WriteAll | base/network/tcpconnection.go:121-126 | A batch is sent frame after frame up to the first that is refused. |
| Framing.SessionCodec.Serve | base/network/tcpconnection.go:76-84 | The reading loop delivers all frames of the stream, whatever its chunks. |
| Framing.FrameRoundTrip | base/network/session/codec.go:24-60 | A frame of at most 1 MB is read back and leaves exactly what follows it. |
| Framing.AcceptedRoundTripIff | base/network/session/codec.go:44-45 | A buffer that is accepted is read back exactly if it is shorter than 4 GB. |
| Framing.HugeBufferLost | base/network/session/codec.go:44-50 | Four gigabytes of zeros are accepted behind a zero header, and not read back. |
| Framing.PrefixRoundTrip | base/network/session/codec.go:24-60 | Of any prefix of a framed list exactly the frames that are complete are received. |
| Framing.WholeRoundTrip | base/network/session/codec.go:24-60 | A whole framed list is received as it was sent. |
| Framing.ReceivedWasSent | base/network/session/codec.go:24-41 | Of any stream at all, re-framing what was received gives its beginning. |
| Framing.MessageRoundTrip | protocol/packet.go:362-430 | A frame is read as message m exactly if it is m's encoding; exactly frames of at least 32 bytes are messages. |
| Framing.StackRoundTrip | base/network/session/codec.go:24-60 | Messages encoded, framed, cut anywhere and delivered in any chunks decode to exactly those whose last byte arrived. |
| RateLimit.Session.ReceiveLimit | base/network/session/session.go:35-49 | Counter, reset time and verdict after one message. |
| RateLimit.Session.Receive | base/network/session/proxy.go:36-45 | A limited message shuts the session down and is not handed on; any other is. |
| RateLimit.RateLimited | base/network/session/session.go:35-49 | With a clock that does not go back, no window of T whole seconds admits more than T(L + 1) + L messages. |
| RateLimit.AdmittedInside | base/network/session/session.go:40-47 | The same from any counter, by the resets that still fit the window. |
| RateLimit.BoundIsReached | base/network/session/session.go:35-49 | For every limit and window length some arrivals at a fresh session reach the bound exactly. |
| RateLimit.ZeroIsUnlimited | base/network/session/session.go:36-38 | Limit 0 admits everything. |
| RegisterText.ReturnDoesNotMatter | protocol/cmd/main.go:56-87 | A carriage return at the end of a line does not change what the line says. |
| RegisterText.ScanAppend | protocol/cmd/main.go:53-104 | A file continued after a line end reads as its entries followed by those of the continuation, unless it had a bad line. |
| RegisterText.KindOfEntry | protocol/cmd/main.go:206 | A printed entry is read as its name and id, whatever comment follows. |
| RegisterText.ReadsBackIff | protocol/cmd/main.go:56-75 | A printed entry is read back exactly if every further line of its comment, as ReadLine cuts it, is blank or itself a comment. |
| RegisterText.SingleLineReadsBack | protocol/cmd/main.go:144-148 | Single-line comments that fit the read buffer are. |
| RegisterText.WrittenReadsBackIff | protocol/cmd/main.go:191-209 | The written file is read to its end as old entries followed by new ones exactly if the old file was and every new entry is read back. |
| RegisterText.BadCommentHidesRest | protocol/cmd/main.go:72-75 | Otherwise nothing behind the first bad comment line is read again. |
| RegisterText.ItemsKeys | protocol/cmd/main.go:94-99 | The items read, with their comments, are the entries read. |
| RegisterText.CommentReadsBack | protocol/cmd/main.go:62-66 | A printed single-line comment is read back, with its slashes in front. |
| RegisterLines.KindIff | protocol/cmd/main.go:62-75 | A line is blank exactly if only white space stands before its comment, and bad exactly if it is not and there is not exactly one equals sign. |
| RegisterLines.HandwrittenEntry | protocol/cmd/main.go:62-92 | A name, an equals sign and a decimal or hexadecimal numeral of either case, with any white space and comment, is that entry. |
| RegisterLines.CommentAtIs | protocol/cmd/main.go:62 | The comment starts at the first two slashes in a row. |
| RegisterLines.IdTooLarge | protocol/cmd/main.go:83-92 | An id above sixteen bits is read as the greatest. |
| RegisterLines.IdOfNoNumeral | protocol/cmd/main.go:83-92 | What is no numeral is read as id zero. |
| RegisterLines.PrintedExample | protocol/cmd/main.go:206 | Id 26 is printed as 0x1A. |
| MsgRegistry.Generator.LoadRegisterFile | protocol/cmd/main.go:46-104 | Fails exactly on a repeated id among the entries read; else items with their comments, map and greatest id are those of the entries. |
| MsgRegistry.Generator.ParseLine | protocol/cmd/main.go:60-87 | Comment, trimming, splitting and number parsing of one line, errors included. |
| MsgRegistry.Generator.LoadProtoFile | protocol/cmd/main.go:127-160 | Exactly the message types not yet registered are numbered, once each, in order, with sixteen-bit wrap. |
| MsgRegistry.Generator.WriterNewProto | protocol/cmd/main.go:191-209 | The file gains an empty line and the printed new items, or nothing. |
| MsgRegistry.Run | protocol/cmd/main.go:31-43 | A whole run is the specified function of the file and the declarations. |
| MsgRegistry.DistinctIff | protocol/cmd/main.go:143-151 | Old and new ids are pairwise distinct exactly if the old ones are, there are at most 65536 new ones, and none handed out after wrapping is taken. |
| MsgRegistry.EnoughIds | protocol/cmd/main.go:143-151 | With enough ids left the new ones are fresh and consecutive. |
| MsgRegistry.ExistingIdsStay | protocol/cmd/main.go:141-151 | No run changes the id of a registered name, even if ids run out. |
| MsgRegistry.NothingFresh | protocol/cmd/main.go:141-142 | Once every new type is registered none is new. |
| MsgRegistry.FreshIff | protocol/cmd/main.go:135-142 | A name is numbered exactly if its first seven characters are "Message", it is not known, and it is the first type of some declaration. |
| MsgRegistry.FreshAt | protocol/cmd/main.go:133-151 | The numbered types come in the order of their first declarations, each with the doc comment of that one. |
| MsgRegistry.FirstTypeIff | protocol/cmd/main.go:136-155 | Of a declaration exactly the first type counts, whatever stands before it. |
| MsgRegistry.LastEntryDecides | protocol/cmd/main.go:99 | The id of a name is that of its last entry. |
| MsgRegistry.SecondRunIdle | protocol/cmd/main.go:31-43 | After a run over a clean file the next one reads the same map, counts on from the same id, assigns nothing and leaves the file alone. |
| MsgRegistry.TwoLineCommentMovesIds | protocol/cmd/main.go:147 | With a two-line doc comment a registered id changes at the next run. |

## Left out

- HashRings.HashRing.GenerateCircle: the quotient of two floats is an integer division, which agrees below 2 to the 53. A quotient by a total weight of zero gives no points: Go leaves the conversion of an infinity or of no number to the platform, and the model follows the one where it is the least integer.
- HashRings.HashRing: the caller's slices and maps are copied, not shared.
- MD5 is an arbitrary function from strings to sixteen bytes.
- ImRouting.IMMgr.RefreshIMSvrList: starts from the parsed server list; reading Redis, JSON and the 15-second age check come before it. The connections of the entries are not modelled, nor that a server's READY overwrites the id of its entry.
- RedisLock: the value behind the lock, GET and DEL of it, and the EXPIRE command itself; an expiry may happen at any step. The sleeps between tries are steps of others.
- RouterServer.Server: sessions and clients are values in the server's maps, identified by session numbers; `sendCnt` and the periodic statistics are not kept. Marshalling a SYNC does not fail, and protobuf of the server list round-trips.
- ViewConsistency.ViewIsSomePastSet: one gate and one router connection; other routers may synchronise anything but ids this router serves, since a table slot holds one router.
- GateView: the address map of routers and the list of server states.
- WriteQueue and EventLoop are state machines over values and not classes, because their point is what other threads do between two statements; panics of functors and of the codec, and closing the socket, are not part of them. Signal wakes the one thread that can wait.
- EventLoop.ClosedRunsEnd: a functor that makes calls for ever keeps the loop from returning, as in the source.
- Framing: I/O errors of the socket other than its end.
- Packets.Packet: the float readers and writers, which map NaN and infinities to 0.
- RateLimit.RateLimited: is about a fixed limit and a clock that does not go back.
- RegisterText: text is ASCII; white space is ASCII white space.
- MsgRegistry: the generated Go file, file errors, and the walk over directories and syntax trees, whose declarations arrive as a list.
- MsgRegistry.SecondRunIdle: type names have at most 4000 characters.
- Sockets, dialling, accept loops and retry back-off; Redis pools; CSV tables; login and forwarding of the gate's clients; loggers, configuration, signals, timers and tickers.
