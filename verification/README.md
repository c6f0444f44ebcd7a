# BitChat mesh: a verified model

BitChat floods encrypted messages through a mesh of nodes. Each node marks the UUIDs it has seen,
lowers the TTL of what it relays, keeps a copy for 72 hours and replays its copies every few seconds.
This project models that gossip engine and proves what it guarantees, at three connected levels.

1. **One node, in place.** `Codec`, `Dedup`, `Store`, `MeshRouter`, `Inbox` and `Discovery` follow the C
   code: arrays filled through a cursor, a probing hash table overwritten slot by slot, a ring buffer,
   nested upsert loops. Every method is proved against a function on values.
2. **Runs of one router.** `RouterSpec` gives the effect of each public operation and of each phase of a
   tick as a function. `OperationLaws` says what each of them answers, sends, keeps and leaves alone without
   naming those functions. `SeenLaws`, `PeerLaws` and `RetentionLaws` prove properties of arbitrary sequences
   of such events, and `MeshRouter.Tick` is proved to be exactly one such sequence.
3. **The whole network.** `Network` runs the same `RouterSpec` functions at many nodes over frames that
   are real byte strings, with loss, delay, replay from storage, expiry and a shared clock.
   `NetworkLaws`, `Survival`, `Wave`, `Flood`, `Overtaking`, `Journey` and `EndToEnd` prove what holds in
   every reachable state; `NodeView` proves that each node of a network run goes through a run of level 2.

| file | content |
|---|---|
| types.dfy, fnv.dfy, codec.dfy | entities, FNV-1a, wire format |
| dedup.dfy, dedup_laws.dfy | the cache of seen UUIDs, and exactly when it is a set |
| store.dfy | the SQL table of pending messages |
| router_spec.dfy, router.dfy | the router as functions and as an object |
| operation_laws.dfy | the outcome of each router operation |
| seen_laws.dfy, peer_laws.dfy, retention_laws.dfy | properties of router runs |
| inbox.dfy, discovery.dfy | receive ring, peer discovery |
| network.dfy, network_laws.dfy | the network's steps and its invariant |
| node_view.dfy | one node of a network run is a router run; at most one delivery network-wide; nobody stores its own mail |
| survival.dfy, wave.dfy | lifetime and cost of a message in any run |
| flood.dfy, overtaking.dfy, journey.dfy | who gets a message: in synchronous rounds, out of order, by store and forward |
| end_to_end.dfy | from plaintext to plaintext |

## Main results

- Every copy of a message, anywhere and at any time, carries the content of its one broadcast, and its
  TTL plus the number of relays behind it equals the TTL it was broadcast with.
- A message broadcast at `c` with TTL `T` is never sent again after `c + (T+1)*(72h + delay)`, even when
  caches forget it and nodes store it again: no frame of it is in flight, and a row of it that a node
  still holds is expired, never replayed, and gone with that node's next expiry sweep.
- Without any help from the caches, each arrival strictly lowers the weight of the frames in flight, and in
  every run one broadcast causes at most `fanout + ... + fanout^(T+1)` sends, rebroadcasts from storage and
  what descends from them not counted.
- In lossless synchronous rounds a node at distance `k` accepts in round `k` a copy with TTL `T+1-k`, and
  the recipient gets the message exactly once, with TTL `T-k`, if its shortest route has 1 to `T` hops;
  otherwise nothing is delivered.
- In every run of insertions and sweeps, and so in every run of a new router, the probe paths of the table stay
  occupied throughout if and only if each sweep, at its turn, finds every fresh entry behind fresh entries
  only; then lookup answers like a set at every moment. A weaker condition decides the state right after a
  sweep, but not what a later insertion makes of it; a run shows the difference.
- Once a UUID is marked, a later copy is taken as new if and only if an event in between met the exact
  condition for forgetting it and none after that brought it back. A router with the default settings has a
  run that accepts a message twice. A new router that marks at most `cap` UUIDs within `dedup_max_age` seconds
  cannot, and in a network run of that length with at most `cap` broadcasts a message is delivered at most
  once in the whole network.
- A copy that arrives with its TTL spent shuts out every later copy until it is forgotten. For every TTL, a
  line of relays one hop too long for it, beside a direct link, admits a run without loss in which the
  recipient, a direct neighbour of the origin, gets nothing.
- Carried from storage to storage along a route of `k <= T` contacts, each a round within 72 hours of storing
  whose frame is not lost and finds a node new to the message, a message that fits the receive buffer is taken
  by the last node with TTL `T+1-k`, whatever else happens in the network.
- What a router broadcasts or relays for the first time is offered again in every rebroadcast round of the
  next 72 hours; rounds are at least 3 and, with a chance every `d` seconds, less than `3+d` seconds apart.
- The wire format is a prefix code, exactly as far as the 32-bit length field reaches.
- If a copy of a sent plaintext is stored in an inbox, that is its addressee's, and the poll that frees the
  copy returns the plaintext byte for byte with its sender. A copy offered to the
  inbox is dropped only if 255 messages wait.
- A poll hands out a plaintext or a sender only for a message that was offered before and opens, under the key
  shared with that sender, to exactly that plaintext. A text of up to 3963 bytes sent to a node 1 to 10 hops
  away and flooded in synchronous rounds is delivered there once and polled as it was sent.
- After a tick no expired row is left and no other row is lost, every readable frame before the first empty read
  was found by lookup once handled, and a due round has offered every pending row, those just received included.

## Where the code and its documentation differ

The model follows the code.

- README.md:42 promises LRU eviction. The code overwrites the first aged slot on the probe path, or the
  home slot when every entry is fresh. A sweep clears slots without tombstones, so a fresh entry can
  become unreachable (`DedupLaws.SweepOrphans`; exact condition right after the sweep in
  `DedupLaws.SweepKeepsSetExactly`, over whole runs in `DedupLaws.PathsOverRuns`).
- `bc_message_deserialize` adds the header size to the declared length in 32 bits. For declared lengths
  from 2^32-93 on the sum wraps, and the payload copy would leave the input: undefined behaviour in C.
  `Decode` has a separate outcome for it, `Codec.OverreadExactly` says when it occurs, `Codec.OverreadOccurs`
  gives inputs, and no frame of an honest node reaches it (`NetworkLaws.ClippedIsNotAccepted`).
- `bc_router_broadcast` does not set the TTL, although mesh_router.h says so; `bc_message_create` does.
- mesh_router.h says a message is stored if no neighbour is reachable; the code stores it always.
- The store rebuilds a timestamp from the time of storing, not from the message.
- A UUID is marked as seen before the TTL is checked, so a copy that arrives with TTL 0 shuts out later ones
  (`SeenLaws.TtlZeroShutsOut`). Being within TTL hops of the origin is therefore not enough to get a message
  when copies overtake each other (`Overtaking.Overtaken`), which is why `Flood` assumes synchronous rounds.
- `bitchat_poll_messages` consumes the message even when it answers that the buffer is too small.

## Model

| member | source | states |
|---|---|---|
| `Types.Elapsed` | src/usecase/mesh_router.c:74 | unsigned 64-bit subtraction; the true difference whenever the clock did not step back |
| `Fnv.DedupHash` | src/usecase/mesh_router.c:19-27 | the loop computes the fold that defines a UUID's home slot |
| `Fnv.MixUndo` | src/usecase/mesh_router.c:22-25 | for a fixed byte one FNV-1a step is a bijection of the 32-bit state: the step with the prime's inverse undoes it on both sides |
| `Fnv.OneByteSeparates` | src/usecase/mesh_router.c:19-27 | UUIDs that differ in exactly one byte have different hashes before reduction modulo the capacity |
| `Fnv.SameHome` | src/usecase/mesh_router.c:26 | two UUIDs have one home slot if and only if their hashes agree modulo the capacity; a hash below the capacity is its own slot |
| `Fnv.TestValues` | src/usecase/mesh_router.c:21-25 | the fold gives the published values of 32-bit FNV-1a for "", "a" and "foobar" |
| `Codec.ReadWritten` | src/domain/message.c:16-54 | reading a big-endian field gives back any value that fits its width |
| `Codec.WriteRead` | src/domain/message.c:16-54 | writing back what was read reproduces the bytes |
| `Codec.BigEndianDigit` | src/domain/message.c:16-54 | byte i of n counts multiples of 256^(n-1-i): the most significant byte comes first |
| `Codec.WriteU32` | src/domain/message.c:16-22 | appends exactly the 4-byte big-endian form at the cursor and changes nothing after it |
| `Codec.WriteU64` | src/domain/message.c:32-42 | appends exactly the 8-byte big-endian form at the cursor and changes nothing after it |
| `Codec.ReadU32` | src/domain/message.c:24-30 | the four shifts read the big-endian value |
| `Codec.ReadU64` | src/domain/message.c:44-54 | the eight shifts read the big-endian value |
| `Codec.Serialize` | src/domain/message.c:106-146 | the cursor walk leaves exactly the frame at the front of the buffer, touches no byte after it, and reports the needed size when the buffer is too small |
| `Codec.Deserialize` | src/domain/message.c:148-199 | the cursor walk computes the three-way decoding: rejected, accepted, or past the input |
| `Codec.RoundTrip` | src/domain/message.c:106-199 | decoding a frame followed by any bytes returns the message if and only if its payload length fits 32 bits |
| `Codec.ProperPrefix` | src/domain/message.c:148-175 | no proper prefix of a frame is accepted; it is rejected outright if and only if the header is cut or the 32-bit sum does not wrap |
| `Codec.OverreadExactly` | src/domain/message.c:170-175 | the undefined case occurs if and only if a complete header declares a length whose sum wraps and the input is shorter |
| `Codec.OverreadOccurs` | src/domain/message.c:170-175 | it occurs on every 93-byte input whose length field is all ones |
| `Codec.AcceptExactly` | src/domain/message.c:148-199 | an input is accepted if and only if it holds the 93-byte header and all of the declared payload |
| `Codec.EncodeInjective` | src/domain/message.c:106-146 | two messages with the same frame are equal, with no bound on the payload |
| `Codec.PrefixFree` | src/domain/message.c:106-199 | no frame is a proper prefix of another |
| `Codec.EncodeDecode` | src/domain/message.c:148-199 | re-encoding any accepted input gives back its first 93 + payload length bytes |
| `Dedup.DedupContains` | src/usecase/mesh_router.c:33-51 | answers yes exactly when the UUID sits on its probe path before any empty slot |
| `Dedup.DedupInsert` | src/usecase/mesh_router.c:56-85 | writes exactly one slot: the first empty or aged one on the probe path, else the home slot |
| `Dedup.DedupEvict` | src/usecase/mesh_router.c:90-100 | clears exactly the occupied aged slots and nothing else |
| `Dedup.FreeStep` | src/usecase/mesh_router.c:62-79 | the first reusable probe step: everything before it is occupied and fresh |
| `DedupLaws.InsertedIsFound` | src/usecase/mesh_router.c:33-85 | whatever the table holds, a UUID just inserted is found by the next lookup |
| `DedupLaws.InsertAt` | src/usecase/mesh_router.c:62-79 | an insertion writes the reusable slot that only fresh entries precede on the probe path, and nothing else |
| `DedupLaws.FullTableWritesHome` | src/usecase/mesh_router.c:81-84 | with every slot taken by a fresh entry it writes the home slot, and nothing else |
| `DedupLaws.FullTableForgets` | src/usecase/mesh_router.c:33-84 | such a table finds exactly what it stores, and an insertion forgets the occupant of the home slot, unless stored elsewhere too, and nobody else |
| `DedupLaws.SteppedBackIsAged` | src/usecase/mesh_router.c:74 | an entry from the future of a clock that stepped back counts as over age, unless by 2^64 - max_age or more |
| `DedupLaws.InsertExactly` | src/usecase/mesh_router.c:33-85 | for every table, another UUID is found after an insertion if and only if it has an entry outside the overwritten slot that is reached through slots occupied before or just written; so an insertion can also make a cut-off entry found again |
| `DedupLaws.InsertForgetsExactly` | src/usecase/mesh_router.c:56-85 | an insertion forgets another UUID if and only if it overwrites the only slot where that one is found |
| `DedupLaws.InsertForgetsOnlyIf` | src/usecase/mesh_router.c:73-84 | it does so only with an over-age entry on that UUID's path or a table full of fresh entries |
| `DedupLaws.InsertKeepsPaths` | src/usecase/mesh_router.c:56-85 | insertion keeps every occupied entry's probe path fully occupied |
| `DedupLaws.PathsMakeASet` | src/usecase/mesh_router.c:33-51 | with occupied paths, lookup is exactly membership in the stored set |
| `DedupLaws.InsertionsRefineASet` | src/usecase/mesh_router.c:33-85 | in every run without sweeps from an empty table lookup answers exactly "is it stored" |
| `DedupLaws.SweepExactly` | src/usecase/mesh_router.c:87-100 | after a sweep a UUID is found if and only if it was reachable through occupied fresh slots only |
| `DedupLaws.SweepForgetsOnlyIf` | src/usecase/mesh_router.c:87-100 | a sweep forgets a UUID only with an over-age entry on its probe path |
| `DedupLaws.SweepKeepsSetExactly` | src/usecase/mesh_router.c:87-100 | for every table, lookup right after a sweep answers like a set if and only if every UUID with a fresh entry has one that is reached through occupied fresh slots only |
| `DedupLaws.SweepKeepsPathsExactly` | src/usecase/mesh_router.c:87-100 | the stronger property that all probe paths are occupied survives a sweep if and only if every fresh entry's own path is fresh |
| `DedupLaws.PathsOverRuns` | src/usecase/mesh_router.c:33-100 | in every run of insertions and sweeps the paths stay occupied throughout if and only if each sweep finds every fresh entry behind fresh entries only at its turn; then lookup answers like a set throughout |
| `DedupLaws.SweepOrphans` | src/usecase/mesh_router.c:43-100 | for any two UUIDs with one home slot, any start time and any maximum age of at least 1, an aged first one makes the fresh second one stored but not found after a sweep |
| `DedupLaws.SetReadingLostLater` | src/usecase/mesh_router.c:56-100 | a sweep after which lookup answers like a set, followed by an insertion after which a stored, fresh UUID is not found: the condition right after the sweep does not carry over, the one on the paths is the one it fails |
| `DedupLaws.SomeSetReadingLostLater` | src/usecase/mesh_router.c:56-100 | UUIDs for such a run exist for every capacity from 3 to 2^128 - 1 |
| `DedupLaws.OrphansExist` | src/usecase/mesh_router.c:19-27 | two UUIDs with one home slot exist for every capacity from 1 to 2^128 - 1 |
| `DedupLaws.YoungRemembers` | src/usecase/mesh_router.c:56-100 | while no entry is over age and a slot is free, neither insertion nor sweep forgets anything |
| `Store.StoreRoundTrip` | src/infra/storage_sqlite.c:192-226 | a stored message reloads with the same content and TTL, stamped with the time of storing |
| `Store.ListingIsComplete` | src/infra/storage_sqlite.c:180-231 | a listing without repeats that is as long as the selection leaves no selected row out |
| `Store.PendingStore.StoreMessage` | src/infra/storage_sqlite.c:103-136 | inserts with expiry now + 72 h, or leaves an existing row of that UUID alone |
| `Store.PendingStore.GetPending` | src/infra/storage_sqlite.c:148-242 | returns every row with expires_at >= now for the given receiver, or for all, exactly once, in any order, leaves none out, and returns nobody else's mail |
| `Store.PendingStore.EvictExpired` | src/infra/storage_sqlite.c:273-290 | a row stays if and only if its expires_at has not passed, and every row that stays is unchanged |
| `MeshRouter.MeshRouter.constructor` | src/usecase/mesh_router.c:129-165 | a new router has an empty cache, no peers and no rebroadcast round behind it |
| `MeshRouter.MeshRouter.ForwardToPeers` | src/usecase/mesh_router.c:107-125 | the loop sends to exactly the peers the specification chooses, and fails only if nothing was sent |
| `MeshRouter.MeshRouter.Broadcast` | src/usecase/mesh_router.c:178-217 | marks, sends the serialised frame to the first fanout accepting peers, stores, and answers OK whoever could be reached |
| `MeshRouter.MeshRouter.Receive` | src/usecase/mesh_router.c:219-276 | whole new state, code, sends and deliveries for every input: invalid, duplicate, TTL spent, for us, to relay; mail for this node is neither stored nor sent on |
| `MeshRouter.MeshRouter.AddPeer` | src/usecase/mesh_router.c:278-298 | updates a known key in place or appends while fewer than 64 are known |
| `MeshRouter.MeshRouter.SendAll` | src/usecase/mesh_router.c:345-357 | the rebroadcast loop forwards each reloaded row once, in the order returned |
| `MeshRouter.MeshRouter.Rebroadcast` | src/usecase/mesh_router.c:331-360 | a round happens exactly when due; then each pending row goes, as stored, to the first fanout peers that accept it, and nothing else is sent |
| `MeshRouter.MeshRouter.Drain` | src/usecase/mesh_router.c:310-321 | receives the queued frames up to the first empty read, in order |
| `MeshRouter.MeshRouter.Tick` | src/usecase/mesh_router.c:300-366 | a tick is exactly the run sweep, receives, round, expiry; afterwards no row is expired and no other lost, every cache entry was fresh at the sweep or arrived in the tick, every readable frame before the first empty read was found once handled, and a due round offered every pending row |
| `OperationLaws.BroadcastAnswer` | src/usecase/mesh_router.c:178-217 | a broadcast answers OK for every input, sends the frame to the first min(fanout, accepting) accepting peers, marks the UUID, keeps the message if there is storage, and changes nothing else |
| `OperationLaws.AddresseeAnswer` | src/usecase/mesh_router.c:231-253 | mail for this node leaves its rows alone and is not sent on; a first copy with TTL left goes to the callback one TTL lower; code and marking case by case |
| `OperationLaws.RelayAnswer` | src/usecase/mesh_router.c:231-275 | a first copy of anyone else's mail with TTL left is kept and sent on one TTL lower and answered OK; without TTL it is only marked; a known one changes nothing |
| `OperationLaws.UnreadableAnswer` | src/usecase/mesh_router.c:222-229 | an input that does not decode changes nothing |
| `OperationLaws.RoundAnswer` | src/usecase/mesh_router.c:331-359 | with storage, a peer and 3 seconds since the last round, each pending row is sent as stored to the first fanout peers that accept it; otherwise nothing is sent and the last round stays |
| `OperationLaws.UpkeepAnswer` | src/usecase/mesh_router.c:278-365 | adding a peer, sweeping and expiring change their own table only; an expiry leaves exactly the rows whose time has not passed |
| `OperationLaws.NoStorageRun` | src/usecase/mesh_router.c:211-213 | without storage no run stores a message or holds a round |
| `OperationLaws.NewRow` | src/usecase/mesh_router.c:245-262 | a new row comes from an own broadcast or from relayed mail for someone else |
| `SeenLaws.CacheStep` | src/usecase/mesh_router.c:178-276 | which events put which UUID into the cache: every broadcast, and every accepted arrival not found, TTL 0 included |
| `SeenLaws.CacheIsASet` | src/usecase/mesh_router.c:178-307 | in every run of a router whose probe paths start occupied they stay so throughout if and only if each cache sweep finds every fresh entry behind fresh entries only; then the cache answers like a set before every event |
| `SeenLaws.DuplicateIffStored` | src/usecase/mesh_router.c:231-236 | in such a run of a new router an arrival is answered DUPLICATE if and only if its UUID is still stored |
| `SeenLaws.AcceptedTwice` | src/usecase/mesh_router.c:87-100 | a run in which a UUID whose entry is not over age is accepted as new twice, for every pair of UUIDs with one home slot and every start time |
| `SeenLaws.SomeAcceptedTwice` | src/usecase/mesh_router.c:87-100 | messages for such a run exist for every capacity from 2 to 2^128 - 1, every start time, and every maximum age of at least 1 second that passes within the clock's range |
| `SeenLaws.DefaultRouterAcceptsTwice` | include/bitchat/usecase/mesh_router.h:33-37 | in particular with the default capacity of 10000 and the default maximum age of 600 seconds, from every start time |
| `SeenLaws.ForgettingStep` | src/usecase/mesh_router.c:56-100 | an event makes a found UUID not found if and only if it marks another one over its only hit, or is a sweep that leaves it no fresh path; it makes a UUID found again if and only if it marks it or fills the gap before one of its entries |
| `SeenLaws.Reacceptance` | src/usecase/mesh_router.c:231-253 | a UUID that arrives after being marked is accepted as new if and only if in between an event met that exact condition for forgetting it and no event after it the one for finding it again |
| `SeenLaws.ReacceptanceCauses` | src/usecase/mesh_router.c:231-253 | then in between an event met an over-age entry on its path or inserted into a table full of fresh entries |
| `SeenLaws.TtlZeroShutsOut` | src/usecase/mesh_router.c:231-242 | after a copy is answered TTL_EXPIRED, every later copy with any TTL is answered DUPLICATE, sends and delivers nothing and changes nothing, up to the first event that forgets the UUID |
| `SeenLaws.QuietRemembers` | src/usecase/mesh_router.c:56-100 | with at most cap marks within dedup_max_age seconds, everything ever marked is still found |
| `SeenLaws.AcceptedAtMostOnce` | src/usecase/mesh_router.c:231-236 | such a router accepts each UUID as new at most once, and never its own |
| `SeenLaws.DeliveredAtMostOnce` | src/usecase/mesh_router.c:245-253 | such a router hands no UUID to the application twice |
| `SeenLaws.NoFalseDuplicate` | src/usecase/mesh_router.c:231-236 | in every run, DUPLICATE is answered only for a UUID that an earlier broadcast or receive marked |
| `PeerLaws.ForwardPicksFirst` | src/usecase/mesh_router.c:107-125 | the peers reached are the first min(fanout, accepting) accepting peers in table order |
| `PeerLaws.ForwardContactsOnce` | src/usecase/mesh_router.c:107-125 | with distinct keys no peer is contacted twice for a frame |
| `PeerLaws.UpsertKeepsTable` | src/usecase/mesh_router.c:278-298 | keys stay distinct, at most 64 and in place; only the entry of that key changes; a new peer is appended as it is while fewer than 64 are known |
| `PeerLaws.TableOverRuns` | src/usecase/mesh_router.c:278-298 | the same over every run |
| `PeerLaws.ForwardOverRuns` | src/usecase/mesh_router.c:107-125 | in every reachable state a frame goes to the first min(fanout, accepting) accepting peers, all distinct |
| `RetentionLaws.RowSurvives` | src/infra/storage_sqlite.c:71-90 | no event up to its expiry removes, extends or alters a row |
| `RetentionLaws.RetainedUntilExpiry` | src/infra/storage_sqlite.c:71-90 | the same over every stretch of every run |
| `RetentionLaws.StoredFor72Hours` | src/infra/storage_sqlite.c:129-132 | a row created by an event expires 72 hours after it |
| `RetentionLaws.OfferedInEveryRound` | src/usecase/mesh_router.c:331-359 | a row is offered to the peers, unchanged, in every round up to 72 hours after it was stored |
| `RetentionLaws.StoreAndForward` | src/usecase/mesh_router.c:255-272 | what a router broadcasts or relays for the first time is offered in that very form in every round of the next 72 hours, in every run |
| `RetentionLaws.RoundRate` | src/usecase/mesh_router.c:331-337 | any window [lo, hi] of any run holds at most floor((hi - lo) / 3) + 1 rounds |
| `RetentionLaws.RoundRecent` | src/usecase/mesh_router.c:331-337 | in any run, within d seconds of a chance to rebroadcast the last round is less than 3 + d seconds old |
| `RetentionLaws.RoundsKeepComing` | src/usecase/mesh_router.c:331-337 | successive rounds are less than 3 + d seconds apart when chances come within d seconds |
| `RetentionLaws.ReplayBound` | src/usecase/mesh_router.c:331-359 | one stored row is replayed in at most 86401 rounds and with at most 86401 * fanout successful sends |
| `Inbox.InOrderRun` | src/bridge/bitchat_ffi.c:95-110 | over any interleaving, stored copies are the freed ones followed by the waiting ones, at most 255 |
| `Inbox.FirstInFirstOut` | src/bridge/bitchat_ffi.c:344-345 | the n-th copy freed is the n-th copy stored |
| `Inbox.DroppedOnlyWhenFull` | src/bridge/bitchat_ffi.c:96-110 | an arrival is dropped if and only if 255 messages wait |
| `Inbox.ShutdownFreesAll` | src/bridge/bitchat_ffi.c:451-455 | after a shutdown every copy ever stored has been freed, once |
| `Inbox.PollAnswersInTurn` | src/bridge/bitchat_ffi.c:338-395 | the poll that frees the n-th copy answers for the n-th copy stored, whatever is offered and polled around it |
| `Inbox.PollIsAuthentic` | src/bridge/bitchat_ffi.c:353-394 | a plaintext or sender is handed out only with code OK, if the key derived for that sender opens this very payload to exactly that plaintext |
| `Inbox.PollRefuses` | src/bridge/bitchat_ffi.c:347-394 | under 40 bytes: OK and nothing; no key, or no valid tag: crypto error and length 0; buffer too small: the exact size |
| `Inbox.PollHandsOut` | src/bridge/bitchat_ffi.c:380-388 | a message that opens is handed out when the buffer fits |
| `Inbox.PolledIsGenuine` | src/bridge/bitchat_ffi.c:338-394 | in any run, whatever plaintext or sender a poll hands out belongs to a message offered before that opens to exactly that plaintext |
| `Inbox.Ring.OnMessage` | src/bridge/bitchat_ffi.c:91-110 | the ring step is the bounded queue's arrival |
| `Inbox.Ring.PollMessages` | src/bridge/bitchat_ffi.c:327-395 | takes the oldest message whatever becomes of it, frees it once on each of the four ways out, hands out only what authenticates, and answers OK with nothing when nothing waits, lengths never underflowing |
| `Inbox.Ring.Shutdown` | src/bridge/bitchat_ffi.c:439-479 | the drain loop frees every waiting copy and resets the ring |
| `Discovery.NoteKeys` | src/usecase/node_discovery.c:50-72 | a known key keeps its place and gets a new time and signal strength; a new peer is appended as it was found while there is room |
| `Discovery.NoteInTurn` | src/usecase/node_discovery.c:50-72 | found peers are handled one after the other, in the order found |
| `Discovery.FoundIsKnown` | src/usecase/node_discovery.c:50-72 | after a scan every peer found is in the table, unless it holds 64 |
| `Discovery.AnnouncedIsGrowth` | src/usecase/node_discovery.c:64-71 | the callbacks of a scan are exactly the keys by which the table grew, repeats inside one scan included |
| `Discovery.LogIsTable` | src/usecase/node_discovery.c:34-75 | over any sequence of scans the callback log is exactly the table's keys in order, distinct, at most 64 |
| `Discovery.PeerDiscovery.NoteOne` | src/usecase/node_discovery.c:51-71 | the inner loop and the append compute one upsert and one announcement |
| `Discovery.PeerDiscovery.Scan` | src/usecase/node_discovery.c:34-75 | the scan computes the upsert of all found peers, or passes on the transport's error with no change |
| `Discovery.PeerDiscovery.GetPeers` | src/usecase/node_discovery.c:77-87 | the first min(known, max) entries of the table |
| `NetworkLaws.ReceivePassesOn` | src/usecase/mesh_router.c:219-276 | all a receive adds anywhere is the accepted message one TTL lower, and it delivers only to the addressee |
| `NetworkLaws.ClippedIsNotAccepted` | src/usecase/mesh_router.c:311-320 | a frame that fits the 4096-byte buffer is accepted as sent, a longer one is rejected |
| `NetworkLaws.StepOk` | src/usecase/mesh_router.c:178-366 | every network step keeps content, TTL account, deadlines and addressing of every copy |
| `NetworkLaws.RunOk` | src/usecase/mesh_router.c:178-366 | so does every run from an initial state |
| `NodeView.NodeRun` | src/usecase/mesh_router.c:178-366 | restricted to one node, any network run is a run of that node's router: same state, same deliveries, every event possible at its turn, on a clock that does not step back |
| `NodeView.MarksWithinBroadcasts` | src/usecase/mesh_router.c:185-242 | while the run is no longer than dedup_max_age and no more messages are broadcast than the node's cache has slots, the node marks only broadcast UUIDs and each at most once |
| `NodeView.DeliveredOnce` | src/usecase/mesh_router.c:231-253 | under that condition on the addressee's cache, a message is delivered at most once in the whole network, whatever is lost, looped back or replayed |
| `NodeView.OnlyOwnMailKept` | src/usecase/mesh_router.c:245-262 | in every reachable state of the network, a row at a node that is addressed to that node belongs to a message it broadcast itself |
| `Survival.TtlConserved` | src/usecase/mesh_router.c:238-272 | in every reachable state ttl + relay depth = origin TTL for every frame ever sent, every row and every delivery |
| `Survival.TenHops` | include/bitchat/domain/message.h:26-27 | with the default TTL no causal chain of relays exceeds 10 hops |
| `Survival.ContentKept` | src/infra/storage_sqlite.c:192-226 | every frame, row and delivery of a UUID carries the sender, receiver and payload of its one broadcast |
| `Survival.RowLifetime` | src/infra/storage_sqlite.c:129-132 | a row with TTL t expires by c + (T-t+1)*72h + (T-t)*delay, on any node of any run |
| `Survival.NothingSentAfter` | src/usecase/mesh_router.c:331-359 | no frame of a message is ever sent after c + (T+1)*72h + T*delay |
| `Survival.LastMomentClosed` | src/infra/storage_sqlite.c:129-132 | that moment in closed form |
| `Survival.Vanished` | src/usecase/mesh_router.c:331-365 | one delay later nothing of the message is in flight, replayable, or left by an expiry sweep |
| `Wave.ArrivalLowersWeight` | src/usecase/mesh_router.c:238-272 | every arrival strictly lowers the sum of (fanout+1)^ttl in flight, unreadable frames weighing 1, whatever the caches hold |
| `Wave.WaveDiesOut` | src/usecase/mesh_router.c:238-272 | a wave holds at most as many arrivals as its initial weight |
| `Wave.BudgetIsGeometric` | src/usecase/mesh_router.c:107-125 | the send budget of a frame is fanout + ... + fanout^ttl |
| `Wave.SendsPerBroadcast` | src/usecase/mesh_router.c:107-125 | in every run, one broadcast causes at most fanout + ... + fanout^(T+1) successful sends that no rebroadcast from storage lies behind |
| `Flood.BallIsRoutes` | src/usecase/mesh_router.c:245-272 | the nodes within k hops are those with a route of at most k hops along peers that forward |
| `Flood.DistanceIsShortest` | src/usecase/mesh_router.c:245-272 | a node's distance is the length of a shortest such route |
| `Flood.FloodReaches` | src/usecase/mesh_router.c:178-276 | after k <= T rounds exactly the nodes within k hops are marked, the frames in flight carry TTL T-k to the next layer, and the recipient has the message once, with TTL T - distance, or nothing was delivered |
| `Flood.FloodLast` | src/usecase/mesh_router.c:238-242 | frames leaving distance T mark one more layer, deliver nothing and go no further |
| `Flood.AcceptedAtDistance` | src/usecase/mesh_router.c:231-272 | a node at distance k is first reached in round k, by a copy with TTL T+1-k |
| `Flood.RecipientReached` | src/usecase/mesh_router.c:245-253 | when the flood ends, the recipient has got this very message once, with the TTL its shortest route leaves, if a route of 1 to T hops exists; otherwise nothing was delivered to anyone |
| `Flood.FloodIsRun` | src/usecase/mesh_router.c:178-276 | every state of the flood is reached by network steps |
| `Overtaking.Overtaken` | src/usecase/mesh_router.c:231-242 | for every TTL T >= 1 and every network with a line of T+1 hops to the recipient beside a direct link: a lossless run in which the recipient marks a spent copy first, nothing is left in flight and nothing is delivered |
| `Overtaking.DirectDelivers` | src/usecase/mesh_router.c:245-253 | in the same network the direct copy is delivered when it arrives first |
| `Journey.OneLeg` | src/usecase/mesh_router.c:331-359 | a carrier that holds a round with the next node in reach within 72 hours of storing makes that node take the message as new, with the stored TTL |
| `Journey.HeldAlongRoute` | src/usecase/mesh_router.c:255-272 | the j-th node of a route of contacts stores the message with TTL T - j |
| `Journey.DelayTolerantDelivery` | src/usecase/mesh_router.c:331-359 | in any network run, the last node of a route of k <= T contacts takes the message as new with TTL T + 1 - k |
| `Journey.CarriedToAddressee` | src/usecase/mesh_router.c:245-253 | if that is the addressee, its application gets the message then, with TTL T - k |
| `Journey.NeighbourReturns` | src/usecase/mesh_router.c:204-213 | the simplest route: a message broadcast while the only neighbour is out of reach, the next round with it in reach, and the arrival |
| `EndToEnd.PollInvertsCompose` | src/bridge/bitchat_ffi.c:344-394 | polling a faithful copy returns the plaintext and sender, or its exact size if the buffer is too small |
| `EndToEnd.DeliveredIsReadable` | src/bridge/bitchat_ffi.c:293-321 | in any network run, a delivered copy of a sent plaintext is at its addressee and decrypts to the plaintext with the right sender |
| `EndToEnd.SentIsPolled` | src/bridge/bitchat_ffi.c:344-394 | through any inbox history fed with the router's deliveries: if the copy is the n-th stored, the poll that frees the n-th copy returns the plaintext and sender, or its exact size |
| `EndToEnd.FitsReceiveBuffer` | src/bridge/bitchat_ffi.c:293-314 | the frame of a plaintext survives the 4096-byte receive buffer if and only if the plaintext has at most 3963 bytes |
| `EndToEnd.SendMessage` | src/bridge/bitchat_ffi.c:273-325 | answers INVALID before initialisation and the crypto error without a key, changing nothing; otherwise broadcasts the message with TTL 10 and answers OK whoever could be reached |
| `EndToEnd.ComposedMessage` | src/bridge/bitchat_ffi.c:293-314 | a sent message has TTL 10, the present time, the nonce and then the sealed plaintext as payload; there is none if and only if key derivation fails |
| `EndToEnd.SentIsRead` | src/bridge/bitchat_ffi.c:276-394 | a plaintext of at most 3963 bytes flooded to a node 1 to 10 hops away is delivered there once, to nobody else, and polling it returns the plaintext and sender, or its size |

## Modelling decisions

- Time is passed in. `Time` is the range in which `now + 72h` fits the signed 64-bit column. Subtraction
  is unsigned with wrap-around, so a clock stepping back is modelled; theorems that need a monotone clock
  say so.
- `send` delivers one frame to one peer or fails, as the transport interface describes; which peers accept
  is an input of every operation (`up`). Allocation and SQL steps succeed.
- Which optional collaborators (transport, storage, callback) a router has is part of its configuration.
- A run is any sequence of events or actions; one that is impossible at its turn changes nothing.
- Network runs assume honest nodes and a fresh UUID for each broadcast. Caches and peer tables start
  arbitrary; frames may be lost, arrive in any order and loop back to their sender.
- `trail`, `replayed`, `launched`, `origins` and `deliveries` are history variables; no step reads them to decide.
- The cipher is a parameter. The only assumptions are that decryption inverts encryption, that encryption
  adds 16 bytes, and that both ends derive the same key (section 6.1 of RFC 7748).

## Left out

- MeshRouter.MeshRouter.Tick: one clock reading serves a whole receive, and one a whole round, where C reads the clock again for the store; the phases of a tick, and each receive, have readings of their own.
- MeshRouter.MeshRouter.Receive: an input on which the 32-bit length check wraps is treated as rejected, which is what C does when the allocation fails; otherwise its behaviour is undefined and nothing is claimed. With storage, inputs beyond INT_MAX bytes are excluded, because their payload would be cast to int for the store.
- MeshRouter.MeshRouter.Broadcast: with storage, payloads beyond INT_MAX are excluded; C casts their length to int, and what SQLite makes of a negative length is undefined.
- EndToEnd.SendMessage: with storage, payloads beyond INT_MAX are excluded as for a broadcast; null arguments and a failing encryption are not modelled.
- Inbox.Ring.PollMessages: null arguments are not modelled, only the uninitialised bridge.
- Deletion of a stored message by UUID: nothing in the router or the bridge calls it.
- The push callback of the bridge, which decrypts like polling but without the queue.
- Cryptography: key generation, X25519 and XChaCha20-Poly1305 themselves.
- Randomness of UUIDs and nonces, and collisions between them.
- SQLite internals, prepared statements, out-of-memory and I/O failures.
- Locking and threads: each public call is one atomic step.
- BLE and Wi-Fi transports (stubs) and the UDP simulator, whose `send` ignores the peer and reaches every port.
- The JNI bridge, the Android application and the command line client.
- Identity files and the pass-through message store: fixed-size copies that would add only easy members.
