# Syncpond server: a verified model

Syncpond is a room-based key/value server. Applications write fragments into the buckets of a room; the server keeps
every room in memory with versions and tombstones, stores each room in a key/value store of its own, and pushes
updates over WebSocket connections to clients that may see a bucket. This project models the four parts that carry
that state and proves what they promise together:

* **Versioned rooms** (`RoomModel`, `RoomOutcomes`, `RoomTheorems`, `AppState`): counter, bucket → key → (value,
  version), tombstones, buffered transactions, snapshots and deltas, load and unload.
* **Kernel and persistence** (`KeyCodec`, `StoreModel`, `StoreTheorems`, `Persistence`, `WorldModel`,
  `WorldOutcomes`, `WorldTheorems`, `WorldVersions`, `WorldWitnesses`, `Kernel`): every command changes memory, one
  string-keyed store that holds three kinds of record, an id list, and a cache of bucket records.
* **Fan-out hub** (`HubModel`, `HubTheorems`, `Hub`): the two-way index between connections and buckets, its caps, the
  bounded queues, and the broadcast loop that removes clients while it iterates.
* **Sync protocol** (`SyncModel`, `SyncStamps`, `SyncTheorems`, `SyncHarm`, `SyncRefinement`): overlapping writes,
  initial sync, the notification channel, the forwarder and the clients as interleaved steps.

Each part has a value-level specification (the `...Model` modules), the outcome of each operation spelled out without
the specification's own functions (`...Outcomes`), theorems over whole sequences of steps (`...Theorems`), and, where
the server updates objects in place, a class whose methods are proved to do exactly what the specification says
(`AppState`, `Persistence`, `Kernel`, `Hub`). Hash maps are visited in arbitrary order: the loops pick any remaining
key. `Protocol` and `Basics` hold the shared message types, options and string trimming.

`dafny verify dfyconfig.toml` checks everything.

## Results worth knowing

* Catch-up, delta composition and the delta-since-0 law hold for every history of sets, deletes and transactions.
  A delta since 0 is the whole room *exactly* when no live visible entry was read back from disk with version 0.
* A transaction equals its direct form *exactly* when every delete finds its bucket: a direct delete of a missing
  bucket fails, a buffered one leaves a tombstone.
* Reload answers a read as before *exactly* when `Survives` holds. It fails in two families, and each is shown from
  every state that allows it and from the start of the server: a live fragment in a bucket that has no record is lost
  (`WorldWitnesses.UndeclaredIsLost`), and the fragments of a deleted bucket that is declared again come back
  (`WorldWitnesses.DeletedComesBack`), because `DeleteBucket` does not clear them.
* Convergence is certain *exactly* as long as no write does harm when it starts (`SyncTheorems.Harms`,
  `SyncHarm.HarmExact`): after a harmful write some continuation leaves a client behind for good. A write does harm if it overtakes another write to the same key that is still in progress, in
  a bucket clients may see, in one of two ways. Either the other one holds another value and has not read the room
  counter yet: it may read one as high as the overtaking write's, where the order of sending decides, or a higher one,
  if any key is written between the two readings. Or the other one has read the counter and holds a value, and the
  overtaking write is a null: a client that joins between the two broadcasts hears only the older value, since initial
  sync skips tombstones. Every other overlap is harmless: the same value twice, or a value stored after the other write
  has read the counter.
* Re-registering a connection id keeps the hub index *exactly* when the new bucket set contains the old one. Every
  connection id up to the last is fresh when handed out; after the last, it is handed out again.
* Where the code and its documents disagree the model follows the code. `server/crates/server/doc/client-protocol.md`
  promises a state snapshot in `auth_ok` and `deleted: true` on deletion; the code answers `auth_ok` with counter 0 and
  no state, syncs with targeted updates instead, and sends a deletion as the JSON value null with `deleted` unset.

## Model

| member | source | states |
|---|---|---|
| KeyCodec.ParseDecimal | server/crates/sp-kernel/src/persistance/mod.rs:208-209 | parsing a printed numeral gives the number back, and fails exactly above the 64-bit maximum |
| KeyCodec.ParseExact | server/crates/sp-kernel/src/persistance/mod.rs:208-209 | the strings the id parser reads as `n` are exactly an optional plus sign, leading zeros, and the printed numeral |
| KeyCodec.NoLeadingZero | server/crates/sp-kernel/src/persistance/mod.rs:133-133 | printed numerals start with 0 only for the number 0 |
| KeyCodec.SplitRoundTrip | server/crates/sp-kernel/src/persistance/mod.rs:348-351 | the first-colon split recovers bucket and key from a fragment key, for keys that hold colons too |
| KeyCodec.FragmentKeyInjective | server/crates/sp-kernel/src/persistance/mod.rs:133-133 | two fragments never share a store key |
| KeyCodec.BucketKeyRoundTrip | server/crates/sp-kernel/src/persistance/mod.rs:207-209 | the scan for bucket records recovers the id from a record key |
| KeyCodec.KindsDisjoint | server/crates/sp-kernel/src/persistance/mod.rs:146-152 | fragment, bucket and list records never shadow one another, and neither scan mistakes one kind for another |
| KeyCodec.BucketNameInjective | server/crates/sp-kernel/src/state/mod.rs:867-868 | two buckets never share a name in a snapshot or delta |
| KeyCodec.NamesSpelledOut | server/crates/sp-kernel/src/persistance/mod.rs:133-151 | the names on disk and in JSON, character by character |
| Basics.TrimExact | server/crates/sp-kernel/src/kernel.rs:164-164 | trimming takes white space off both ends, nothing else, and all of it |
| AppState.RoomState.SetFragment | server/crates/sp-kernel/src/state/mod.rs:437-468 | refines `Apply` of a set: every error branch, buffering while a transaction is open, else a new version |
| AppState.RoomState.DelFragment | server/crates/sp-kernel/src/state/mod.rs:471-506 | refines `Apply` of a delete: also fails on a missing bucket, else leaves a tombstone under a new version |
| AppState.RoomState.Get | server/crates/sp-kernel/src/state/mod.rs:509-534 | gives the live value and version, or the right one of the five errors |
| AppState.RoomState.End | server/crates/sp-kernel/src/state/mod.rs:793-831 | the commit loop leaves the room that committing the whole buffer in order defines |
| AppState.RoomState.MakeSnapshot | server/crates/sp-kernel/src/state/mod.rs:845-876 | whatever order the maps are visited in, the loops build the snapshot specification |
| AppState.RoomState.MakeDelta | server/crates/sp-kernel/src/state/mod.rs:880-924 | whatever order the maps are visited in, early return and loops build the delta specification |
| AppState.RoomState.LoadData | server/crates/sp-kernel/src/state/mod.rs:243-278 | the loading loop replaces buckets, labels, flags and members by the stored ones, all versions 0, counter kept |
| AppState.LastLabelCounts | server/crates/sp-kernel/src/state/mod.rs:255-258 | of several definitions of a bucket the last one with a label names it; one without a label leaves an earlier label standing |
| AppState.LastFlagsCount | server/crates/sp-kernel/src/state/mod.rs:255-274 | the last definition gives the flags, and a defined bucket gets all its fragments or is empty |
| AppState.AppState.CreateRoom | server/crates/sp-kernel/src/state/mod.rs:210-227 | the next id gets a new loaded room with an object of its own; all other rooms stay |
| AppState.AppState.DeleteRoom | server/crates/sp-kernel/src/state/mod.rs:293-301 | exactly the named room disappears, or the error is reported |
| AppState.AppState.RegisterStubs | server/crates/server/src/main.rs:258-287 | startup registers every store found as an unloaded stub and moves the next room id above all of them |
| AppState.Largest | server/crates/server/src/main.rs:278-282 | the maximum of the ids found: a member that bounds all |
| RoomTheorems.VersionOrder | server/crates/sp-kernel/src/state/mod.rs:437-506 | in every history, with loads, unloads and bucket changes, versions stay at most the counter, nonzero versions are distinct across all buckets, and the counter has grown by exactly the number of sets and deletes applied |
| RoomTheorems.RunGrows | server/crates/sp-kernel/src/state/mod.rs:437-506 | over any steps an entry either stays or gets a version above the old counter |
| RoomOutcomes.CommandOutcome | server/crates/sp-kernel/src/state/mod.rs:444-487 | a set or delete is refused exactly by a busy room, an unloaded room, or for a delete a missing bucket; a refusal changes nothing, and an open transaction only collects the command |
| RoomOutcomes.CommandTakesEffect | server/crates/sp-kernel/src/state/mod.rs:462-505 | a set or delete that takes effect reads back under the new counter, and every other entry reads as before |
| RoomOutcomes.FetchOutcome | server/crates/sp-kernel/src/state/mod.rs:515-533 | a read finds exactly the live value with its version, and each of the five errors has exactly one cause |
| RoomOutcomes.VersionOutcome | server/crates/sp-kernel/src/state/mod.rs:537-544 | the version is the counter, refused exactly by a busy room |
| RoomOutcomes.TransactionOutcome | server/crates/sp-kernel/src/state/mod.rs:779-842 | each refusal of begin, end and abort has exactly one cause and changes nothing: an open buffer survives a second begin |
| RoomOutcomes.LoadOutcome | server/crates/sp-kernel/src/state/mod.rs:253-277 | loading replaces entries and metadata by the stored ones, all with version 0, and keeps counter, lock and open transaction |
| RoomOutcomes.UnloadOutcome | server/crates/sp-kernel/src/state/mod.rs:281-290 | unloading drops entries and metadata, and keeps counter, lock and open transaction |
| RoomOutcomes.SnapshotRule | server/crates/sp-kernel/src/state/mod.rs:853-875 | a bucket is in the snapshot if and only if the room has it, it is not the reserved one, and it is bucket 0 or allowed; its keys are exactly the live ones |
| RoomOutcomes.DeltaRule | server/crates/sp-kernel/src/state/mod.rs:888-923 | a bucket is in the delta if and only if it passes the same rule and holds a newer key; its keys are exactly the newer ones, tombstones as null |
| RoomOutcomes.OnlyTheAllowed | server/crates/sp-kernel/src/state/mod.rs:853-918 | two rooms that agree on the counter and the allowed buckets give a reader equal snapshots and equal deltas |
| RoomTheorems.SnapshotContent | server/crates/sp-kernel/src/state/mod.rs:853-870 | a snapshot holds a key exactly when its bucket is visible and its entry is live, with that entry's value |
| RoomTheorems.DeltaContent | server/crates/sp-kernel/src/state/mod.rs:888-918 | a delta holds a key exactly when its bucket is visible and its version is above `since`, tombstones included |
| RoomTheorems.EarlyReturnIsTheFilter | server/crates/sp-kernel/src/state/mod.rs:888-893 | the early return for an up-to-date reader gives what the filtering loop would |
| RoomTheorems.CatchUp | server/crates/sp-kernel/src/state/mod.rs:845-924 | an old snapshot overlaid with a later delta since any version up to the snapshot's is the new snapshot, for all steps between |
| RoomTheorems.DeltasCompose | server/crates/sp-kernel/src/state/mod.rs:880-924 | two consecutive deltas, the later on top, are the delta over the whole stretch |
| RoomTheorems.DeltaSinceZero | server/crates/sp-kernel/src/state/mod.rs:880-924 | the delta since 0, nulls dropped, is the snapshot if and only if no live visible entry has version 0 |
| RoomTheorems.NeverLoadedDelta | server/crates/sp-kernel/src/state/mod.rs:880-924 | in a room never loaded from disk the delta since 0 is the snapshot, after any history |
| RoomTheorems.LoadedDeltaFallsShort | server/crates/sp-kernel/src/state/mod.rs:243-278 | a live visible fragment read back from disk is missing from the delta since 0, for every room and every stored content |
| RoomTheorems.CommitEntry | server/crates/sp-kernel/src/state/mod.rs:793-831 | a touched key holds its last buffered command, versioned start counter plus that command's 1-based position; all other keys stay; the counter grows by the list length |
| RoomTheorems.TransactionCommits | server/crates/sp-kernel/src/state/mod.rs:779-831 | begin, any buffered commands, end is the commit of those commands |
| RoomTheorems.TransactionEquivalence | server/crates/sp-kernel/src/state/mod.rs:453-831 | a transaction leaves the room its commands leave when applied directly, if and only if every delete finds its bucket |
| RoomTheorems.MissingBucketDiffers | server/crates/sp-kernel/src/state/mod.rs:490-492 | deleting a key of a missing bucket: a transaction and the direct call always leave different rooms |
| RoomTheorems.TransactionIsolation | server/crates/sp-kernel/src/state/mod.rs:437-544 | while a transaction is open every get, snapshot, delta and version answers as before it began, and aborting restores the room |
| StoreTheorems.FragmentsExact | server/crates/sp-kernel/src/persistance/mod.rs:335-365 | the fragments of a bucket are exactly the values stored under its keys |
| StoreTheorems.ScanExact | server/crates/sp-kernel/src/persistance/mod.rs:311-326 | a full scan finds exactly the bucket records, each under its own id |
| StoreTheorems.FragmentWritten | server/crates/sp-kernel/src/persistance/mod.rs:127-144 | writing or deleting one fragment changes that fragment only; records, lists and members stay |
| StoreTheorems.RecordWritten | server/crates/sp-kernel/src/persistance/mod.rs:239-288 | adding or removing a record changes the scan at that id only, the id list follows, fragments and members stay |
| StoreTheorems.MembersWritten | server/crates/sp-kernel/src/persistance/mod.rs:154-183 | writing the member list is read back, and fragments and records stay |
| StoreTheorems.LoadBucketsIsTheScan | server/crates/sp-kernel/src/persistance/mod.rs:291-330 | cache, id list and fallback scan give the same records |
| StoreTheorems.ReadersFindLastWrites | server/crates/sp-kernel/src/persistance/mod.rs:127-365 | after any interleaving of fragment, bucket and member writes each reader returns exactly the last surviving write of its kind, told from the list of operations alone |
| Persistence.PersistenceManager.ListRoomIds | server/crates/sp-kernel/src/persistance/mod.rs:94-102 | lists exactly the rooms that have a store |
| Persistence.PersistenceManager.EvictBuckets | server/crates/sp-kernel/src/persistance/mod.rs:219-228 | the cache may lose any entries; what it keeps is still what a scan finds |
| Persistence.PersistenceManager.PersistFragment | server/crates/sp-kernel/src/persistance/mod.rs:127-144 | puts or deletes the fragment in that room's store; stores stay sound and the cache true |
| Persistence.PersistenceManager.PersistMember | server/crates/sp-kernel/src/persistance/mod.rs:168-176 | adds the trimmed name to the stored list, nothing for a blank name |
| Persistence.PersistenceManager.CollectBucketIds | server/crates/sp-kernel/src/persistance/mod.rs:201-217 | the key scan collects exactly the ids of parsable record keys |
| Persistence.PersistenceManager.PersistBucket | server/crates/sp-kernel/src/persistance/mod.rs:239-271 | record, id list and cache entry change together, so the cache still equals a full scan |
| Persistence.PersistenceManager.UnpersistBucket | server/crates/sp-kernel/src/persistance/mod.rs:274-288 | removal reaches record, id list and cache entry together, so the cache still equals a full scan |
| Persistence.PersistenceManager.FetchBuckets | server/crates/sp-kernel/src/persistance/mod.rs:291-330 | whichever of the three routes answers, the answer is the full scan, and it is cached |
| Persistence.PersistenceManager.RecordsOf | server/crates/sp-kernel/src/persistance/mod.rs:299-305 | the loop over the id list returns exactly the records stored for those ids |
| Persistence.PersistenceManager.ScanBuckets | server/crates/sp-kernel/src/persistance/mod.rs:311-326 | the fallback loop over all keys finds exactly the bucket records |
| Persistence.PersistenceManager.LoadAllFragments | server/crates/sp-kernel/src/persistance/mod.rs:335-365 | the loop that splits every key finds exactly the stored fragments of every bucket, and no empty group |
| WorldTheorems.NewBucketAgrees | server/crates/sp-kernel/src/kernel.rs:161-192 | declaring a bucket keeps memory, stores and cache in agreement |
| WorldTheorems.DeleteBucketAgrees | server/crates/sp-kernel/src/kernel.rs:193-215 | deleting a bucket keeps the agreement |
| WorldTheorems.NewMemberAgrees | server/crates/sp-kernel/src/kernel.rs:216-238 | adding a member keeps the agreement, blank names included |
| WorldTheorems.DeleteMemberAgrees | server/crates/sp-kernel/src/kernel.rs:239-259 | removing a member keeps the agreement |
| WorldTheorems.WriteAgrees | server/crates/sp-kernel/src/kernel.rs:260-323 | a write keeps the agreement, null writes included |
| WorldTheorems.LoadAgrees | server/crates/sp-kernel/src/kernel.rs:337-386 | loading keeps the agreement and fills the room from a full scan of its store |
| WorldTheorems.UnloadAgrees | server/crates/sp-kernel/src/kernel.rs:387-399 | unloading keeps the agreement |
| WorldTheorems.RestartAgrees | server/crates/server/src/main.rs:254-287 | a cold start with an empty cache and stub rooms keeps the agreement |
| WorldTheorems.HandleAgrees | server/crates/sp-kernel/src/kernel.rs:146-401 | every command keeps the agreement between memory, stores and cache |
| WorldTheorems.AlwaysAgrees | server/crates/sp-kernel/src/kernel.rs:146-407 | after any sequence of commands, room deletions, evictions and restarts: live entries are stored with the same value and tombstones are absent; members, bucket ids and stored labels match; unloaded rooms hold nothing; cached records equal a scan |
| WorldTheorems.EveryRouteIsTheScan | server/crates/sp-kernel/src/persistance/mod.rs:291-330 | in every reachable state cache, id list and scan give the same records, one per stored record key |
| WorldOutcomes.UnloadedRefuses | server/crates/sp-kernel/src/kernel.rs:161-336 | a room that is not loaded answers every command but load and unload with the refusal, and nothing changes |
| WorldOutcomes.UnknownRefuses | server/crates/sp-kernel/src/kernel.rs:161-399 | the answer of each command to a room that does not exist; only a load leaves a trace |
| WorldOutcomes.UnknownLoad | server/crates/sp-kernel/src/kernel.rs:337-386 | loading an unknown room opens its store and caches its records, and touches no room |
| WorldOutcomes.NewRoomOutcome | server/crates/sp-kernel/src/kernel.rs:148-160 | the id answered is unused, its room is loaded and empty with an empty store, and every other room and store stays |
| WorldOutcomes.NewBucketOutcome | server/crates/sp-kernel/src/kernel.rs:161-192 | the trimmed label is stored and shown; a blank one is stored as none and the one shown stays; entries, all other buckets, rooms and stores stay |
| WorldOutcomes.DeleteBucketOutcome | server/crates/sp-kernel/src/kernel.rs:193-215 | the bucket leaves memory with its label and flags and loses its record; its stored fragments and everything else stay |
| WorldOutcomes.NewMemberOutcome | server/crates/sp-kernel/src/kernel.rs:216-238 | the trimmed member joins memory and store, a blank one changes nothing, everything else stays |
| WorldOutcomes.DeleteMemberOutcome | server/crates/sp-kernel/src/kernel.rs:239-259 | the trimmed member leaves memory and store, everything else stays |
| WorldOutcomes.WriteOutcome | server/crates/sp-kernel/src/kernel.rs:260-323 | the value is in memory under the next version, in the store unless it is null, and broadcast with that version unless 1024 messages wait; everything else stays |
| WorldOutcomes.ReadOutcome | server/crates/sp-kernel/src/kernel.rs:324-336 | the live value or nothing for a loaded room, the refusal for an unloaded one, nothing for an unknown one; a read changes nothing |
| WorldOutcomes.UnloadRoomOutcome | server/crates/sp-kernel/src/kernel.rs:387-399 | the room holds nothing and is not loaded, every read of it is refused, and all stores and other rooms stay |
| WorldOutcomes.LoadRoomOutcome | server/crates/sp-kernel/src/kernel.rs:337-386 | the room holds exactly what its store holds, fragments, labels, flags and members, with the counter kept |
| WorldOutcomes.LoadedIsTold | server/crates/sp-kernel/src/kernel.rs:146-407 | in every reachable state a room is loaded if and only if the run last created or loaded it; otherwise it holds nothing |
| WorldOutcomes.UnloadedUntilLoaded | server/crates/sp-kernel/src/kernel.rs:161-336 | from an unload on, until a load, every other command to the room is refused and changes nothing |
| WorldOutcomes.LabelSurvives | server/crates/sp-kernel/src/kernel.rs:164-187 | the declared label is shown at once and again after unload and load and after a restart and load; a blank declaration leaves none after either |
| WorldOutcomes.MetadataSurvives | server/crates/sp-kernel/src/kernel.rs:337-399 | members and declared buckets are the same after unload and load and after a restart and load, and no label appears that was not shown |
| WorldTheorems.RestoredEntries | server/crates/sp-kernel/src/kernel.rs:349-373 | a loaded room holds exactly the stored fragments of the buckets that have a record, with version 0 |
| WorldTheorems.ReloadExact | server/crates/sp-kernel/src/kernel.rs:324-399 | unload and load, or restart and load, answer a read as before if and only if `Survives` holds of the room and store before |
| WorldTheorems.LiveValuesSurvive | server/crates/sp-kernel/src/kernel.rs:337-399 | a live value in a bucket with a record is never lost or altered by unload and load or by restart and load |
| WorldTheorems.CarefulRunsAreTidy | server/crates/sp-kernel/src/kernel.rs:161-323 | when the bucket is declared before it is written and never deleted, nothing is stored for it that memory does not hold live |
| WorldTheorems.ReloadLooksTheSame | server/crates/sp-kernel/src/kernel.rs:324-399 | in every such history all reads of the bucket answer the same across unload and load, and across a restart and load |
| WorldWitnesses.UndeclaredIsLost | server/crates/sp-kernel/src/kernel.rs:260-323 | from every reachable state, a live value written into a bucket without a record answers before and is gone after a reload |
| WorldWitnesses.DeletedComesBack | server/crates/sp-kernel/src/kernel.rs:161-215 | from every reachable state, deleting and redeclaring a bucket hides its fragments until a reload brings them back |
| WorldWitnesses.ReloadLoses | server/crates/sp-kernel/src/kernel.rs:148-323 | a history from the start of the server whose reload loses a value |
| WorldWitnesses.ReloadRevives | server/crates/sp-kernel/src/kernel.rs:148-323 | a history from the start of the server whose reload revives a deleted value |
| WorldVersions.CounterCountsWrites | server/crates/sp-kernel/src/kernel.rs:260-399 | in every reachable server state all versions are in order and a room's counter is the number of writes applied since it was created or registered |
| Kernel.SyncpondKernel.HandleNewRoom | server/crates/sp-kernel/src/kernel.rs:148-160 | room created and store opened as the command function says |
| Kernel.SyncpondKernel.HandleNewBucket | server/crates/sp-kernel/src/kernel.rs:161-192 | memory, store and cache after declaring a bucket, and the refusals |
| Kernel.SyncpondKernel.HandleDeleteBucket | server/crates/sp-kernel/src/kernel.rs:193-215 | memory, store and cache after deleting a bucket, and the refusals |
| Kernel.SyncpondKernel.HandleNewMember | server/crates/sp-kernel/src/kernel.rs:216-238 | memory and store after adding a trimmed member |
| Kernel.SyncpondKernel.HandleDeleteMember | server/crates/sp-kernel/src/kernel.rs:239-259 | memory and store after removing a trimmed member |
| Kernel.SyncpondKernel.HandleWriteFragment | server/crates/sp-kernel/src/kernel.rs:260-323 | memory first, then the store with null as deletion, then a broadcast stamped with the counter read afterwards |
| Kernel.SyncpondKernel.BroadcastWrite | server/crates/sp-kernel/src/kernel.rs:301-320 | the update is stamped with the room counter as it is at that moment, or 0, and lost when the channel is full |
| Kernel.SyncpondKernel.HandleReadFragment | server/crates/sp-kernel/src/kernel.rs:324-336 | the live value, nothing, or the not-loaded refusal |
| Kernel.SyncpondKernel.HandleLoadRoom | server/crates/sp-kernel/src/kernel.rs:337-386 | store opened and records cached even for an unknown room; a known room is filled from them |
| Kernel.SyncpondKernel.Fill | server/crates/sp-kernel/src/kernel.rs:349-386 | members and fragments read from the store fill a known room exactly as its store describes it |
| Kernel.SyncpondKernel.HandleCommand | server/crates/sp-kernel/src/kernel.rs:146-401 | every command updates rooms, stores, cache and channel in place exactly as the command function says, and answers as it says |
| Kernel.DefsOf | server/crates/sp-kernel/src/kernel.rs:362-366 | the list of definitions built from the records in any order describes the same buckets, labels and flags |
| Kernel.SyncpondKernel.CollectSync | server/crates/sp-kernel/src/kernel.rs:93-120 | the nested loops collect exactly the live fragments of the requested buckets, each with its own version |
| Kernel.SyncpondKernel.HandleClientConnected | server/crates/sp-kernel/src/kernel.rs:82-143 | initial sync sends such a list as targeted updates until the first failure, and nothing for an unknown connection or room |
| Kernel.ConnectClient | server/crates/sp-downstream/src/connection.rs:178-204 | registering a connection and syncing it sends the live fragments of its own room in the buckets of its token |
| Kernel.Startup | server/crates/server/src/main.rs:254-288 | startup over existing stores builds the restarted server: stubs, next id, empty cache and channel |
| Hub.WsHub.HasRoom | server/crates/sp-downstream/src/hub.rs:60-66 | the cap loop refuses exactly when some bucket is full for a new connection |
| Hub.WsHub.AddClient | server/crates/sp-downstream/src/hub.rs:53-83 | a rejected client leaves both maps unchanged; an accepted one is entered in both, open, with the room given and an empty queue |
| Hub.WsHub.RemoveClient | server/crates/sp-downstream/src/hub.rs:89-100 | the loop takes the connection off all its buckets and drops lists that run empty; the index stays valid |
| Hub.WsHub.SendTargetedUpdate | server/crates/sp-downstream/src/hub.rs:136-158 | the event is queued, or the client is gone afterwards, and the result says which |
| Hub.WsHub.BroadcastUpdate | server/crates/sp-downstream/src/hub.rs:160-166 | removing clients while looping over a copy, in any order, serves all recipients as if at once |
| Hub.WsHub.RunForwarder | server/crates/sp-downstream/src/hub.rs:168-183 | each client that stays has its old queue followed by all messages that concern it, in order; it stays if and only if there are none, or it is open and its queue has room for all |
| Hub.WsHub.Register | server/crates/sp-downstream/src/connection.rs:141-197 | id allocation and registration under one lock, for the room given, with bucket 0 added and the reserved bucket taken out |
| HubTheorems.AddClientIndex | server/crates/sp-downstream/src/hub.rs:53-83 | registering keeps the two-way index if and only if the id is new or its new bucket set contains the old one |
| HubTheorems.RemoveClientIndex | server/crates/sp-downstream/src/hub.rs:89-100 | removal keeps the index and takes the connection off every list |
| HubTheorems.ServeOneMore | server/crates/sp-downstream/src/hub.rs:160-166 | sending to one more recipient, whichever it is, extends the set already served: the order of visits does not matter |
| HubTheorems.BroadcastEffect | server/crates/sp-downstream/src/hub.rs:136-166 | every prior subscriber has the event appended exactly once or is gone from both maps; every other queue and index entry is untouched |
| HubTheorems.AtMost200Connections | server/crates/sp-downstream/src/hub.rs:12-13 | since all connections join bucket 0, its cap bounds the whole hub |
| HubTheorems.HubAlwaysOk | server/crates/sp-downstream/src/hub.rs:47-183 | in every state reached with fresh ids the index is two-way consistent, no list is empty or over 200, bucket 0 is held and the reserved bucket is not, and at most 200 connections exist |
| HubTheorems.NoGaps | server/crates/sp-downstream/src/hub.rs:136-183 | for every connection still registered, messages taken plus messages queued are, in order and exactly once, the forwarder's relevant messages since it joined |
| HubTheorems.ForwardAllExact | server/crates/sp-downstream/src/hub.rs:168-183 | forwarding any list of messages: who stays, and what is in its queue, told from the list alone |
| HubTheorems.ForwardStepsInARow | server/crates/sp-downstream/src/hub.rs:168-183 | messages forwarded step by step leave the hub that the forwarder loop leaves, so that the absence of gaps covers the loop |
| HubTheorems.ConnectOutcome | server/crates/sp-downstream/src/connection.rs:178-197 | registration is refused if and only if a bucket of the token has 200 clients, and then changes neither map; otherwise the client is open with an empty queue and all others stay |
| HubTheorems.TokenIsKept | server/crates/sp-downstream/src/hub.rs:69-76 | in every reachable state a connection has the room of its token, and exactly the buckets of its token and bucket 0, never the reserved one |
| HubTheorems.AllocationFresh | server/crates/sp-downstream/src/hub.rs:47-51 | the id handed out is unused, up to and including the last one; the next one is unused if and only if the counter has not saturated |
| SyncStamps.ConcurrentWriteStamps | server/crates/sp-kernel/src/kernel.rs:260-323 | with the steps of any number of writes interleaved, and transactions, bucket changes, loads and unloads in between, each broadcast counter is at least the write's own version and at most the room counter, then and later |
| SyncStamps.OwnVersion | server/crates/sp-kernel/src/state/mod.rs:462-465 | the version kept for a write is the one its own fragment received, when the set took effect directly |
| SyncTheorems.SyncAlwaysOk | server/crates/sp-kernel/src/kernel.rs:82-323 | the invariant behind convergence, after every history without a harmful write: what a registered client has received, has queued or is about to get answers every key it mentions and, once collected, every live key of its buckets |
| SyncTheorems.MergeKeepsHighest | server/crates/sp-downstream/proto/downstream.proto:28-34 | a client that merges by counter holds, per key, an update with the highest counter it received |
| SyncTheorems.Convergence | server/crates/sp-kernel/src/kernel.rs:82-323 | for every interleaving of writes, bucket declarations, initial syncs, sends, forwarding and departures in which no write does harm and no broadcast is dropped, a registered client at rest shows exactly the live content of its buckets, whatever it does on equal counters |
| SyncHarm.HarmfulWriteDiverges | server/crates/sp-kernel/src/kernel.rs:82-323 | from every state the protocol reaches, a harmful write can go on, with nothing harmful after it and nothing lost, to a client at rest that does not show the room |
| SyncHarm.HarmExact | server/crates/sp-kernel/src/kernel.rs:82-323 | after every history without a harmful write, the next write does harm if and only if such a continuation exists, for either rule on equal counters |
| SyncHarm.OverlapDiverges | server/crates/sp-kernel/src/kernel.rs:260-323 | two overlapping writes to one key: before the first has read the counter, every second write of another value can leave a client behind; after that, exactly a second write of null can |
| SyncHarm.SilentEvent | server/crates/sp-kernel/src/state/mod.rs:243-290 | transactions, direct deletes, bucket deletions, loads and unloads reach no client: one at rest still shows the room if and only if the event leaves the live content of its buckets alone |
| SyncHarm.LeftBehind | server/crates/sp-kernel/src/kernel.rs:193-215 | deleting a bucket with a live fragment a client sees, or unloading the room, leaves that client at rest with what is gone |
| SyncHarm.SyncListExists | server/crates/sp-kernel/src/kernel.rs:93-120 | whatever the room holds, the list that initial sync collects exists |
| SyncRefinement.UninterruptedWrite | server/crates/sp-kernel/src/kernel.rs:260-323 | the three steps of a write, run back to back, change room and channel exactly as the command arm does |
| SyncRefinement.SendAllExact | server/crates/sp-kernel/src/kernel.rs:124-135 | sending until the first failure queues the first updates in order, as many as the channel has room for |
| SyncRefinement.UninterruptedSync | server/crates/sp-kernel/src/kernel.rs:124-135 | the turns of the sending loop, back to back, are the whole initial sync, complete exactly when the channel has room for all of it |

## Left out

- SyncTheorems.Convergence: one room, and clients that hear of no other; a bucket id shared with another room is not covered, since the hub's index does not tell rooms apart. What deleting a bucket, loading or unloading does to a client is stated separately, by SyncHarm.SilentEvent.
- SyncHarm.HarmExact: asks for a connection id to be left, because the client that is left behind is a new one.
- AppState.AppState.DeleteRoom: does not remove room labels that point at the room, because room labels are not modelled.
- Kernel.SyncpondKernel.HandleNewRoom: does not set the room label from the command's name, for the same reason.
- Persistence.PersistenceManager.ListRoomIds: does not state that the ids are sorted; startup registers them all and takes the maximum.
- Persistence.PersistenceManager.CollectBucketIds: collects a set; that the stored id list is sorted, like the member list, is not modelled, since every reader turns it into a set or map.
- Integer widths of room ids, room counters and flags: they are unbounded naturals; bucket ids and connection ids are 64-bit, and the saturation of the connection id counter is modelled.
- JSON text and bytes: a value is null or a document identified by its text, and a stored document is represented by the value it encodes, so parse failures of stored bytes cannot occur.
- The `deleted` flag and the protobuf frames of `update_event`: every update the kernel sends carries a value.
- `RoomPersistence` handles: flattened into methods of the manager that take the room id.
- Failing store operations, lock poisoning and the file system: store operations succeed.
- The LRU order of the bucket cache: eviction is a separate step that may drop any entries at any time between commands.
- Overlap of commands on memory, store and cache: `AlwaysAgrees` is about sequential histories; the overlap of writes is treated in `SyncModel` for the room, the channel and the clients only.
- Room labels, bucket label and flag setters, listings, `room_info` and metrics: easy members.
- JWT signing and checking, API keys, origin checks, WebSocket and gRPC plumbing, `process_client_message`, configuration and logging.
- The TypeScript and Rust clients: the merging client of the convergence theorem is a stated environment.
