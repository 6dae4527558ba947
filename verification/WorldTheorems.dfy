/** Memory, store and cache agree after every sequential run, and reloading a room looks the same to a reader. */
module WorldTheorems {
  import opened Basics
  import opened Protocol
  import opened RoomModel
  import RoomTheorems
  import opened StoreModel
  import opened StoreTheorems
  import opened WorldModel

  // ---------- what holds between a room and its store ----------

  /** No fragment is stored as null: deletions remove the key. */
  ghost predicate NoNulls(s: Store) {
    forall b: u64, k :: StoredAt(s, b, k) != Some(Null)
  }

  /** A live entry is stored with the same value and a tombstone is absent from the store. */
  ghost predicate FragmentsAgree(r: Room, s: Store) {
    forall b: u64, k :: EntryAt(r, b, k).Some? ==> StoredAt(s, b, k) == Durable(EntryAt(r, b, k).value.value)
  }

  /** Bucket ids, labels and members in memory against the stored ones; a stored label is the label in memory. */
  ghost predicate MetadataAgrees(r: Room, records: Records, members: set<string>) {
    && r.flags.Keys == records.Keys
    && r.flags.Keys <= r.buckets.Keys && r.labels.Keys <= r.flags.Keys
    && r.members == members
    && forall b :: b in records && records[b].title.Some? ==> b in r.labels && r.labels[b] == records[b].title.value
  }

  ghost predicate HoldsNothing(r: Room) {
    r.buckets == map[] && r.labels == map[] && r.flags == map[] && r.members == {}
  }

  ghost predicate RoomAgrees(r: Room, s: Store, id: nat) {
    && !r.ioLocked && r.txBuffer.None?
    && (r.loaded ==> FragmentsAgree(r, s) && MetadataAgrees(r, Scan(s), StoredMembers(s, id)))
    && (!r.loaded ==> HoldsNothing(r))
  }

  ghost predicate StoreOk(s: Store, id: nat) {
    Sound(s, id) && NoNulls(s)
  }

  ghost predicate StoresAgree(w: World) {
    forall id :: id in w.dbs ==> StoreOk(w.dbs[id], id)
  }

  /** A store created by loading an id that was never handed out is still empty when the id is. */
  ghost predicate UnusedIdsEmpty(w: World) {
    forall id :: id in w.dbs && id >= w.nextRoomId ==> w.dbs[id] == map[]
  }

  ghost predicate CacheAgrees(w: World) {
    forall id :: id in w.cache ==> id in w.dbs && w.cache[id] == Scan(w.dbs[id])
  }

  ghost predicate RoomsAgree(w: World) {
    forall id :: id in w.rooms ==> id in w.dbs && id < w.nextRoomId && RoomAgrees(w.rooms[id], w.dbs[id], id)
  }

  ghost predicate Agrees(w: World) {
    StoresAgree(w) && UnusedIdsEmpty(w) && CacheAgrees(w) && RoomsAgree(w)
  }

  // ---------- each command keeps it ----------

  lemma EmptyStoreSound(id: nat)
    ensures Sound(map[], id) && NoNulls(map[]) && Scan(map[]) == map[] && StoredMembers(map[], id) == {}
  {
  }

  lemma OpenAgrees(w: World, id: nat)
    requires Agrees(w)
    ensures Agrees(OpenDb(w, id)) && id in OpenDb(w, id).dbs
  {
    if id !in w.dbs {
      EmptyStoreSound(id);
      var w' := OpenDb(w, id);
      assert forall other :: other in w.dbs ==> w'.dbs[other] == w.dbs[other];
      assert RoomsAgree(w');
    }
  }

  /** One room, its store and its cache entry move; all other rooms, stores and cache entries stay. */
  function Moved(w: World, id: nat, r: Room, s: Store, records: Records, channel: seq<ChannelMessage>): World {
    w.(rooms := w.rooms[id := r], dbs := w.dbs[id := s],
       cache := if id in w.cache then w.cache[id := records] else w.cache, channel := channel)
  }

  lemma MovedStores(w: World, id: nat, r: Room, s: Store, records: Records, channel: seq<ChannelMessage>)
    requires StoresAgree(w) && UnusedIdsEmpty(w) && StoreOk(s, id) && id < w.nextRoomId
    ensures StoresAgree(Moved(w, id, r, s, records, channel)) && UnusedIdsEmpty(Moved(w, id, r, s, records, channel))
  {
  }

  lemma MovedCache(w: World, id: nat, r: Room, s: Store, records: Records, channel: seq<ChannelMessage>)
    requires CacheAgrees(w) && records == Scan(s)
    ensures CacheAgrees(Moved(w, id, r, s, records, channel))
  {
  }

  lemma MovedRooms(w: World, id: nat, r: Room, s: Store, records: Records, channel: seq<ChannelMessage>)
    requires RoomsAgree(w) && id in w.rooms && RoomAgrees(r, s, id)
    ensures RoomsAgree(Moved(w, id, r, s, records, channel))
  {
  }

  lemma MovedAgrees(w: World, id: nat, r: Room, s: Store, records: Records, channel: seq<ChannelMessage>)
    requires Agrees(w) && id in w.rooms
    requires StoreOk(s, id) && RoomAgrees(r, s, id) && records == Scan(s)
    ensures Agrees(Moved(w, id, r, s, records, channel))
  {
    MovedStores(w, id, r, s, records, channel);
    MovedCache(w, id, r, s, records, channel);
    MovedRooms(w, id, r, s, records, channel);
  }

  /** The facts about one loaded room that a command arm starts from. */
  ghost predicate Pair(r: Room, s: Store, id: nat) {
    StoreOk(s, id) && RoomAgrees(r, s, id)
  }

  lemma PairOf(w: World, id: nat)
    requires Agrees(w) && id in w.rooms
    ensures id in w.dbs && Pair(w.rooms[id], w.dbs[id], id)
    ensures id in w.cache ==> w.cache[id] == Scan(w.dbs[id])
  {
  }

  lemma NewRoomAgrees(w: World)
    requires Agrees(w)
    ensures Agrees(DoNewRoom(w).0)
  {
    var id := w.nextRoomId;
    OpenAgrees(w, id);
    var ready, w' := OpenDb(w, id), DoNewRoom(w).0;
    assert w' == ready.(rooms := ready.rooms[id := NewRoom(true)], nextRoomId := id + 1);
    FreshRoomAgrees(id);
    assert ready.dbs[id] == map[];
  }

  lemma FreshRoomAgrees(id: nat)
    ensures RoomAgrees(NewRoom(true), map[], id)
  {
  }

  lemma AddBucketMetadata(r: Room, records: Records, members: set<string>, b: u64, name: string)
    requires MetadataAgrees(r, records, members)
    ensures MetadataAgrees(AddBucket(r, b, name), WithRecord(records, RecordFor(b, name)), members)
  {
  }

  lemma DropBucketMetadata(r: Room, records: Records, members: set<string>, b: u64)
    requires MetadataAgrees(r, records, members)
    ensures MetadataAgrees(DropBucket(r, b), records - {b}, members)
  {
  }

  lemma SameFragmentsAgree(r: Room, s: Store, r': Room, s': Store)
    requires FragmentsAgree(r, s) && NoNulls(s)
    requires forall b: u64, k :: StoredAt(s', b, k) == StoredAt(s, b, k)
    requires forall b: u64, k :: EntryAt(r', b, k).Some? ==> EntryAt(r', b, k) == EntryAt(r, b, k)
    ensures FragmentsAgree(r', s') && NoNulls(s')
  {
  }

  lemma AddBucketEntries(r: Room, b: u64, name: string)
    ensures forall b': u64, k :: EntryAt(AddBucket(r, b, name), b', k) == EntryAt(r, b', k)
    ensures forall b': u64, k :: EntryAt(DropBucket(r, b), b', k) == if b' == b then None else EntryAt(r, b', k)
  {
  }

  lemma NewBucketPair(r: Room, s: Store, id: nat, b: u64, name: string)
    requires Pair(r, s, id) && r.loaded
    ensures Pair(AddBucket(r, b, name), PutBucket(s, id, RecordFor(b, name)), id)
    ensures Scan(PutBucket(s, id, RecordFor(b, name))) == WithRecord(Scan(s), RecordFor(b, name))
  {
    RecordWritten(s, id, b, Some(RecordFor(b, name)));
    AddBucketEntries(r, b, name);
    SameFragmentsAgree(r, s, AddBucket(r, b, name), PutBucket(s, id, RecordFor(b, name)));
    AddBucketMetadata(r, Scan(s), StoredMembers(s, id), b, name);
  }

  lemma NewBucketMoves(w: World, id: nat, b: u64, name: string)
    requires id in w.rooms && w.rooms[id].loaded && id in w.dbs
    ensures DoNewBucket(w, id, b, name).0 ==
            Moved(w, id, AddBucket(w.rooms[id], b, Trim(name)), PutBucket(w.dbs[id], id, RecordFor(b, Trim(name))),
                  if id in w.cache then WithRecord(w.cache[id], RecordFor(b, Trim(name))) else map[], w.channel)
  {
  }

  lemma UncachedMoves(w: World, id: nat, r: Room, s: Store, records: Records, channel: seq<ChannelMessage>)
    requires id !in w.cache
    ensures forall other :: Moved(w, id, r, s, other, channel) == Moved(w, id, r, s, records, channel)
  {
  }

  lemma NewBucketAgrees(w: World, id: nat, b: u64, name: string)
    requires Agrees(w)
    ensures Agrees(DoNewBucket(w, id, b, name).0)
  {
    if id in w.rooms && w.rooms[id].loaded {
      PairOf(w, id);
      var r, s, rec := w.rooms[id], w.dbs[id], RecordFor(b, Trim(name));
      NewBucketPair(r, s, id, b, Trim(name));
      NewBucketMoves(w, id, b, name);
      if id !in w.cache {
        UncachedMoves(w, id, AddBucket(r, b, Trim(name)), PutBucket(s, id, rec), WithRecord(Scan(s), rec), w.channel);
      }
      MovedAgrees(w, id, AddBucket(r, b, Trim(name)), PutBucket(s, id, rec), WithRecord(Scan(s), rec), w.channel);
    }
  }

  lemma DeleteBucketPair(r: Room, s: Store, id: nat, b: u64)
    requires Pair(r, s, id) && r.loaded
    ensures Pair(DropBucket(r, b), RemoveBucket(s, id, b), id)
    ensures Scan(RemoveBucket(s, id, b)) == Scan(s) - {b}
  {
    RecordWritten(s, id, b, None);
    AddBucketEntries(r, b, "");
    SameFragmentsAgree(r, s, DropBucket(r, b), RemoveBucket(s, id, b));
    DropBucketMetadata(r, Scan(s), StoredMembers(s, id), b);
  }

  lemma DeleteBucketMoves(w: World, id: nat, b: u64)
    requires id in w.rooms && w.rooms[id].loaded && id in w.dbs
    ensures DoDeleteBucket(w, id, b).0 ==
            Moved(w, id, DropBucket(w.rooms[id], b), RemoveBucket(w.dbs[id], id, b),
                  if id in w.cache then w.cache[id] - {b} else map[], w.channel)
  {
  }

  lemma DeleteBucketAgrees(w: World, id: nat, b: u64)
    requires Agrees(w)
    ensures Agrees(DoDeleteBucket(w, id, b).0)
  {
    if id in w.rooms && w.rooms[id].loaded {
      PairOf(w, id);
      var r, s := w.rooms[id], w.dbs[id];
      DeleteBucketPair(r, s, id, b);
      DeleteBucketMoves(w, id, b);
      if id !in w.cache {
        UncachedMoves(w, id, DropBucket(r, b), RemoveBucket(s, id, b), Scan(s) - {b}, w.channel);
      }
      MovedAgrees(w, id, DropBucket(r, b), RemoveBucket(s, id, b), Scan(s) - {b}, w.channel);
    }
  }

  lemma MembersPair(r: Room, s: Store, id: nat, names: set<string>)
    requires Pair(r, s, id) && r.loaded
    ensures Pair(r.(members := names), WithMembers(s, id, names), id)
    ensures Scan(WithMembers(s, id, names)) == Scan(s)
  {
    MembersWritten(s, id, names);
    assert forall b: u64, k :: EntryAt(r.(members := names), b, k) == EntryAt(r, b, k);
    SameFragmentsAgree(r, s, r.(members := names), WithMembers(s, id, names));
    assert MetadataAgrees(r, Scan(s), r.members);
    assert MetadataAgrees(r.(members := names), Scan(s), names);
  }

  /** A command that leaves the cache alone moves its room and store. */
  lemma CacheStays(w: World, id: nat, r: Room, s: Store, channel: seq<ChannelMessage>)
    requires CacheAgrees(w) && id in w.dbs && Scan(s) == Scan(w.dbs[id])
    ensures Moved(w, id, r, s, Scan(s), channel) == WithStore(WithRoom(w, id, r), id, s).(channel := channel)
  {
  }

  lemma MembersAgree(w: World, id: nat, names: set<string>)
    requires Agrees(w) && id in w.rooms && w.rooms[id].loaded
    ensures Agrees(WithStore(WithRoom(w, id, w.rooms[id].(members := names)), id, WithMembers(w.dbs[id], id, names)))
  {
    PairOf(w, id);
    var r', s' := w.rooms[id].(members := names), WithMembers(w.dbs[id], id, names);
    MembersPair(w.rooms[id], w.dbs[id], id, names);
    CacheStays(w, id, r', s', w.channel);
    MovedAgrees(w, id, r', s', Scan(s'), w.channel);
  }

  lemma NewMemberMoves(w: World, id: nat, member: string)
    requires id in w.rooms && w.rooms[id].loaded && id in w.dbs
    requires w.rooms[id].members == StoredMembers(w.dbs[id], id)
    ensures DoNewMember(w, id, member).0 ==
            if Trim(member) == "" then w
            else
              var names := w.rooms[id].members + {Trim(member)};
              WithStore(WithRoom(w, id, w.rooms[id].(members := names)), id, WithMembers(w.dbs[id], id, names))
  {
    TrimIdempotent(member);
    if Trim(member) == "" {
      assert w.rooms[id := w.rooms[id]] == w.rooms && w.dbs[id := w.dbs[id]] == w.dbs;
    }
  }

  lemma NewMemberAgrees(w: World, id: nat, member: string)
    requires Agrees(w)
    ensures Agrees(DoNewMember(w, id, member).0)
  {
    if id in w.rooms && w.rooms[id].loaded {
      PairOf(w, id);
      NewMemberMoves(w, id, member);
      MembersAgree(w, id, w.rooms[id].members + {Trim(member)});
    }
  }

  lemma DeleteMemberAgrees(w: World, id: nat, member: string)
    requires Agrees(w)
    ensures Agrees(DoDeleteMember(w, id, member).0)
  {
    if id in w.rooms && w.rooms[id].loaded {
      PairOf(w, id);
      MembersAgree(w, id, w.rooms[id].members - {Trim(member)});
    }
  }

  lemma WrittenFragmentsAgree(r: Room, s: Store, s': Store, c: RoomCommand)
    requires FragmentsAgree(r, s) && NoNulls(s)
    requires forall b: u64, k :: StoredAt(s', b, k) ==
               if b == c.bucket && k == c.key then Durable(c.Stored()) else StoredAt(s, b, k)
    ensures FragmentsAgree(Put(r, c), s') && NoNulls(s')
  {
    forall b: u64, k {
      RoomTheorems.PutEntry(r, c, b, k);
    }
  }

  lemma WritePair(r: Room, s: Store, id: nat, b: u64, k: string, v: Value)
    requires Pair(r, s, id) && r.loaded
    ensures Apply(r, Set(b, k, v)).0 == Put(r, Set(b, k, v))
    ensures Pair(Put(r, Set(b, k, v)), PutFragment(s, b, k, Durable(v)), id)
    ensures Scan(PutFragment(s, b, k, Durable(v))) == Scan(s)
  {
    FragmentWritten(s, id, b, k, Durable(v));
    FragmentKeepsSound(s, id, b, k, Durable(v));
    WrittenFragmentsAgree(r, s, PutFragment(s, b, k, Durable(v)), Set(b, k, v));
    assert MetadataAgrees(Put(r, Set(b, k, v)), Scan(s), StoredMembers(s, id));
  }

  lemma WriteMoves(w: World, id: nat, b: u64, k: string, v: Value)
    requires id in w.rooms && w.rooms[id].loaded && id in w.dbs
    ensures var w' := DoWriteFragment(w, id, b, k, v).0;
      w' == WithStore(WithRoom(w, id, Apply(w.rooms[id], Set(b, k, v)).0), id, PutFragment(w.dbs[id], b, k, Durable(v)))
            .(channel := w'.channel)
  {
  }

  lemma WriteAgrees(w: World, id: nat, b: u64, k: string, v: Value)
    requires Agrees(w)
    ensures Agrees(DoWriteFragment(w, id, b, k, v).0)
  {
    if id in w.rooms && w.rooms[id].loaded {
      PairOf(w, id);
      var r', s' := Put(w.rooms[id], Set(b, k, v)), PutFragment(w.dbs[id], b, k, Durable(v));
      var channel := DoWriteFragment(w, id, b, k, v).0.channel;
      WritePair(w.rooms[id], w.dbs[id], id, b, k, v);
      WriteMoves(w, id, b, k, v);
      CacheStays(w, id, r', s', channel);
      MovedAgrees(w, id, r', s', Scan(s'), channel);
    }
  }

  /** Loading a room from a sound store gives exactly what the store holds for the buckets that have a record. */
  lemma RestoredEntries(r: Room, s: Store, id: nat)
    requires Sound(s, id)
    ensures forall b: u64, k :: EntryAt(Restored(r, s, id, Scan(s)), b, k) ==
              if b in Scan(s) && StoredAt(s, b, k).Some? then Some(Entry(StoredAt(s, b, k).value, 0)) else None
  {
    forall b: u64 {
      FragmentsExact(s, b);
    }
  }

  lemma RestoredPair(r: Room, s: Store, id: nat)
    requires StoreOk(s, id) && !r.ioLocked && r.txBuffer.None?
    ensures Pair(Restored(r, s, id, Scan(s)), s, id)
  {
  }

  /** Loading answers from the cache or the store; either way the world it leaves has the scan cached. */
  lemma LoadMoves(w: World, id: nat)
    requires id in w.dbs && Sound(w.dbs[id], id) && CacheAgrees(w)
    ensures var cached := w.(cache := w.cache[id := Scan(w.dbs[id])]);
      DoLoadRoom(w, id).0 ==
      if id in w.rooms then WithRoom(cached, id, Restored(w.rooms[id], w.dbs[id], id, Scan(w.dbs[id]))) else cached
  {
  }

  lemma CachedAgrees(w: World, id: nat)
    requires Agrees(w) && id in w.dbs
    ensures Agrees(w.(cache := w.cache[id := Scan(w.dbs[id])]))
  {
    OnlyCacheChanged(w, w.(cache := w.cache[id := Scan(w.dbs[id])]));
  }

  lemma OnlyCacheChanged(w: World, w': World)
    requires StoresAgree(w) && UnusedIdsEmpty(w) && RoomsAgree(w) && w' == w.(cache := w'.cache)
    ensures StoresAgree(w') && UnusedIdsEmpty(w') && RoomsAgree(w')
  {
  }

  lemma LoadAgrees(w: World, id: nat)
    requires Agrees(w)
    ensures Agrees(DoLoadRoom(w, id).0)
    ensures id in w.rooms ==>
              DoLoadRoom(w, id).0 == WithRoom(w, id, Restored(w.rooms[id], w.dbs[id], id, Scan(w.dbs[id])))
                                     .(cache := w.cache[id := Scan(w.dbs[id])])
  {
    OpenAgrees(w, id);
    var ready := OpenDb(w, id);
    assert DoLoadRoom(w, id).0 == DoLoadRoom(ready, id).0;
    assert StoreOk(ready.dbs[id], id);
    LoadMoves(ready, id);
    CachedAgrees(ready, id);
    if id in w.rooms {
      PairOf(w, id);
      var cached := ready.(cache := w.cache[id := Scan(w.dbs[id])]);
      var r' := Restored(w.rooms[id], w.dbs[id], id, Scan(w.dbs[id]));
      RestoredPair(w.rooms[id], w.dbs[id], id);
      MovedAgrees(cached, id, r', w.dbs[id], Scan(w.dbs[id]), w.channel);
      StoreStays(cached, id, r');
    }
  }

  lemma StoreStays(w: World, id: nat, r: Room)
    requires id in w.dbs && CacheAgrees(w)
    ensures Moved(w, id, r, w.dbs[id], Scan(w.dbs[id]), w.channel) == WithRoom(w, id, r)
  {
    assert w.dbs[id := w.dbs[id]] == w.dbs;
    if id in w.cache { assert w.cache[id := w.cache[id]] == w.cache; }
  }

  lemma UnloadAgrees(w: World, id: nat)
    requires Agrees(w)
    ensures Agrees(DoUnloadRoom(w, id).0)
  {
    if id in w.rooms {
      PairOf(w, id);
      MovedAgrees(w, id, Unload(w.rooms[id]), w.dbs[id], Scan(w.dbs[id]), w.channel);
      StoreStays(w, id, Unload(w.rooms[id]));
    }
  }

  lemma {:induction false} MaxIdBounds(ids: set<nat>)
    ensures forall id :: id in ids ==> id <= MaxId(ids)
    ensures ids == {} ==> MaxId(ids) == 0
    ensures ids != {} ==> MaxId(ids) in ids
  {
    if ids != {} {
      var id :| id in ids && MaxId(ids) == if id > MaxId(ids - {id}) then id else MaxId(ids - {id});
      MaxIdBounds(ids - {id});
      assert forall other | other in ids && other != id :: other in ids - {id};
    }
  }

  lemma RestartAgrees(w: World)
    requires Agrees(w)
    ensures Agrees(Restart(w))
  {
    MaxIdBounds(w.dbs.Keys);
  }

  lemma HandleAgrees(w: World, c: Command)
    requires Agrees(w)
    ensures Agrees(Handle(w, c).0)
  {
    match c
    case NewRoomCommand => NewRoomAgrees(w);
    case NewBucket(id, b, name) => NewBucketAgrees(w, id, b, name);
    case DeleteBucket(id, b) => DeleteBucketAgrees(w, id, b);
    case NewMember(id, m) => NewMemberAgrees(w, id, m);
    case DeleteMember(id, m) => DeleteMemberAgrees(w, id, m);
    case WriteFragment(id, b, k, v) => WriteAgrees(w, id, b, k, v);
    case ReadFragment(_, _, _) =>
    case LoadRoom(id) => LoadAgrees(w, id);
    case UnloadRoom(id) => UnloadAgrees(w, id);
  }

  lemma NextAgrees(w: World, step: WorldStep)
    requires Agrees(w)
    ensures Agrees(Next(w, step))
  {
    match step
    case Issue(c) => HandleAgrees(w, c);
    case ColdStart => RestartAgrees(w);
    case _ =>
  }

  /** Memory, stores and cache agree after every run of commands, room deletions, evictions and restarts. */
  lemma {:induction false} AlwaysAgrees(steps: seq<WorldStep>)
    ensures Agrees(After(steps))
  {
    if steps != [] {
      AlwaysAgrees(steps[..|steps| - 1]);
      NextAgrees(After(steps[..|steps| - 1]), steps[|steps| - 1]);
    }
  }

  /** However `load_buckets` answers, in any reachable state, the answer is the full scan of the room's store. */
  lemma EveryRouteIsTheScan(steps: seq<WorldStep>, id: nat)
    requires id in After(steps).dbs
    ensures var w := After(steps);
      && LoadBuckets(w.dbs[id], id, Lookup(w.cache, id)) == Scan(w.dbs[id])
      && LoadBuckets(w.dbs[id], id, None) == Scan(w.dbs[id])
      && forall b: u64 :: b in Scan(w.dbs[id]) <==> KeyCodec.BucketKey(b) in w.dbs[id]
  {
    AlwaysAgrees(steps);
    var w := After(steps);
    LoadBucketsIsTheScan(w.dbs[id], id, Lookup(w.cache, id));
    LoadBucketsIsTheScan(w.dbs[id], id, None);
    CanonicalIds(w.dbs[id], id);
    ScanExact(w.dbs[id], id);
  }

  // ---------- reloading ----------

  ghost function Reloaded(w: World, id: nat): World {
    DoLoadRoom(DoUnloadRoom(w, id).0, id).0
  }

  ghost function ColdStarted(w: World, id: nat): World {
    DoLoadRoom(Restart(w), id).0
  }

  lemma AnswerOf(w: World, id: nat, b: u64, k: string)
    requires Agrees(w) && id in w.rooms && w.rooms[id].loaded
    ensures Answer(w, id, b, k) ==
            FragmentReadResponse(if Live(w.rooms[id], b, k) then Some(EntryAt(w.rooms[id], b, k).value.value) else None)
  {
  }

  /** What a reader gets after loading: the stored value, if the bucket has a record. */
  lemma AnswerAfterLoad(w: World, id: nat, b: u64, k: string)
    requires Agrees(w) && id in w.rooms
    ensures Answer(DoLoadRoom(w, id).0, id, b, k) ==
            FragmentReadResponse(if b in Scan(w.dbs[id]) then StoredAt(w.dbs[id], b, k) else None)
  {
    LoadAgrees(w, id);
    RestoredEntries(w.rooms[id], w.dbs[id], id);
    AnswerOf(DoLoadRoom(w, id).0, id, b, k);
  }

  /** What a reader gets after unload and load, and after a restart and load. */
  lemma ReloadAnswers(w: World, id: nat, b: u64, k: string)
    requires Agrees(w) && id in w.rooms
    ensures var answer := FragmentReadResponse(if b in Scan(w.dbs[id]) then StoredAt(w.dbs[id], b, k) else None);
      Answer(Reloaded(w, id), id, b, k) == answer && Answer(ColdStarted(w, id), id, b, k) == answer
  {
    UnloadAgrees(w, id);
    AnswerAfterLoad(DoUnloadRoom(w, id).0, id, b, k);
    RestartAgrees(w);
    AnswerAfterLoad(Restart(w), id, b, k);
  }

  /** When a read survives a reload, stated on the room and its store before the reload. */
  ghost predicate Survives(w: World, id: nat, b: u64, k: string)
    requires id in w.rooms && id in w.dbs
  {
    if b in w.rooms[id].flags then StoredAt(w.dbs[id], b, k).Some? ==> Live(w.rooms[id], b, k)
    else !Live(w.rooms[id], b, k)
  }

  /**
   Unloading and loading a room, or restarting the server and loading it, answers a read as before exactly when
   the bucket has a record and no fragment left over from a deleted bucket is stored under the key, or the bucket
   has no record and the key was not live.
   */
  lemma ReloadExact(w: World, id: nat, b: u64, k: string)
    requires Agrees(w) && id in w.rooms && w.rooms[id].loaded
    ensures Answer(Reloaded(w, id), id, b, k) == Answer(w, id, b, k) <==> Survives(w, id, b, k)
    ensures Answer(ColdStarted(w, id), id, b, k) == Answer(w, id, b, k) <==> Survives(w, id, b, k)
  {
    ReloadAnswers(w, id, b, k);
    AnswerOf(w, id, b, k);
    assert Live(w.rooms[id], b, k) ==> StoredAt(w.dbs[id], b, k) == Some(EntryAt(w.rooms[id], b, k).value.value);
  }

  /** A live value in a bucket that has a record is never lost or altered by a reload. */
  lemma LiveValuesSurvive(w: World, id: nat, b: u64, k: string)
    requires Agrees(w) && id in w.rooms && w.rooms[id].loaded
    requires b in w.rooms[id].flags && Live(w.rooms[id], b, k)
    ensures Answer(Reloaded(w, id), id, b, k) == FragmentReadResponse(Some(EntryAt(w.rooms[id], b, k).value.value))
    ensures Answer(ColdStarted(w, id), id, b, k) == FragmentReadResponse(Some(EntryAt(w.rooms[id], b, k).value.value))
  {
    ReloadExact(w, id, b, k);
    AnswerOf(w, id, b, k);
  }

  predicate Writes(c: Command, id: nat, b: u64) {
    c.WriteFragment? && c.room == id && c.bucket == b
  }

  /** The bucket is not deleted, and it is written only once it has been declared with `NewBucket`. */
  ghost predicate Careful(w: World, step: WorldStep, id: nat, b: u64) {
    step.Issue? ==>
      && step.command != DeleteBucket(id, b)
      && (Writes(step.command, id, b) && id in w.rooms && w.rooms[id].loaded ==> b in w.rooms[id].flags)
  }

  ghost predicate CarefulRun(steps: seq<WorldStep>, id: nat, b: u64) {
    forall i | 0 <= i < |steps| :: Careful(After(steps[..i]), steps[i], id, b)
  }

  /** Nothing is stored for an undeclared bucket. */
  ghost predicate TidyStore(s: Store, records: Records, b: u64) {
    b !in records ==> forall k :: StoredAt(s, b, k).None?
  }

  /** In a loaded room an undeclared bucket does not exist, and whatever is stored is live in memory. */
  ghost predicate TidyRoom(r: Room, s: Store, b: u64) {
    r.loaded ==>
      && (b !in r.flags ==> b !in r.buckets)
      && forall k :: StoredAt(s, b, k).Some? ==> Live(r, b, k)
  }

  ghost predicate Tidy(w: World, id: nat, b: u64) {
    && (id in w.dbs ==> TidyStore(w.dbs[id], Scan(w.dbs[id]), b))
    && (id in w.rooms && id in w.dbs ==> TidyRoom(w.rooms[id], w.dbs[id], b))
  }

  lemma EmptyIsTidy(id: nat, b: u64)
    ensures TidyStore(map[], Scan(map[]), b) && TidyRoom(NewRoom(true), map[], b) && TidyRoom(NewRoom(false), map[], b)
  {
  }

  /** The room and its store change, but not in the fragments of the bucket; the bucket's record is not lost. */
  lemma TidyStays(r: Room, s: Store, r': Room, s': Store, b: u64)
    requires TidyStore(s, Scan(s), b) && TidyRoom(r, s, b) && r.loaded
    requires forall k :: StoredAt(s', b, k) == StoredAt(s, b, k)
    requires forall k :: EntryAt(r', b, k) == EntryAt(r, b, k)
    requires b in Scan(s) ==> b in Scan(s')
    requires b in r.flags ==> b in r'.flags
    requires b !in r'.flags ==> (b in r'.buckets <==> b in r.buckets)
    ensures TidyStore(s', Scan(s'), b) && TidyRoom(r', s', b)
  {
  }

  lemma TidyBucketCommand(w: World, c: Command, id: nat, b: u64)
    requires Agrees(w) && Tidy(w, id, b) && Careful(w, Issue(c), id, b)
    requires (c.NewBucket? || c.DeleteBucket?) && c.room == id && id in w.rooms && w.rooms[id].loaded
    ensures Tidy(Handle(w, c).0, id, b)
  {
    var r, s, w' := w.rooms[id], w.dbs[id], Handle(w, c).0;
    AddBucketEntries(r, c.bucket, if c.NewBucket? then Trim(c.name) else "");
    RecordWritten(s, id, c.bucket, if c.NewBucket? then Some(RecordFor(c.bucket, Trim(c.name))) else None);
    TidyStays(r, s, w'.rooms[id], w'.dbs[id], b);
  }

  lemma TidyMembers(r: Room, s: Store, id: nat, names: set<string>, b: u64)
    requires Pair(r, s, id) && r.loaded && TidyStore(s, Scan(s), b) && TidyRoom(r, s, b)
    ensures TidyStore(WithMembers(s, id, names), Scan(WithMembers(s, id, names)), b)
    ensures TidyRoom(r.(members := names), WithMembers(s, id, names), b)
  {
    MembersWritten(s, id, names);
    assert forall k :: EntryAt(r.(members := names), b, k) == EntryAt(r, b, k);
    TidyStays(r, s, r.(members := names), WithMembers(s, id, names), b);
  }

  lemma TidyMemberCommand(w: World, c: Command, id: nat, b: u64)
    requires Agrees(w) && Tidy(w, id, b)
    requires (c.NewMember? || c.DeleteMember?) && c.room == id && id in w.rooms && w.rooms[id].loaded
    ensures Tidy(Handle(w, c).0, id, b)
  {
    PairOf(w, id);
    var r, s := w.rooms[id], w.dbs[id];
    if c.NewMember? {
      NewMemberMoves(w, id, c.member);
      TidyMembers(r, s, id, r.members + {Trim(c.member)}, b);
    } else {
      TidyMembers(r, s, id, r.members - {Trim(c.member)}, b);
    }
  }

  /** The written fragment joins the store and the room, or leaves the store and becomes a tombstone. */
  lemma TidyWritten(r: Room, s: Store, s': Store, records: Records, cmd: RoomCommand, b: u64)
    requires TidyStore(s, records, b) && TidyRoom(r, s, b) && r.loaded
    requires forall k :: StoredAt(s', b, k) ==
               if cmd.bucket == b && k == cmd.key then Durable(cmd.Stored()) else StoredAt(s, b, k)
    requires cmd.bucket == b ==> b in r.flags && b in records
    ensures TidyStore(s', records, b) && TidyRoom(Put(r, cmd), s', b)
  {
    forall k {
      RoomTheorems.PutEntry(r, cmd, b, k);
    }
  }

  lemma TidyFragment(r: Room, s: Store, id: nat, cmd: RoomCommand, b: u64)
    requires Pair(r, s, id) && r.loaded && TidyStore(s, Scan(s), b) && TidyRoom(r, s, b)
    requires cmd.bucket == b ==> b in r.flags
    ensures var s' := PutFragment(s, cmd.bucket, cmd.key, Durable(cmd.Stored()));
      TidyStore(s', Scan(s'), b) && TidyRoom(Put(r, cmd), s', b)
  {
    var s' := PutFragment(s, cmd.bucket, cmd.key, Durable(cmd.Stored()));
    FragmentWritten(s, id, cmd.bucket, cmd.key, Durable(cmd.Stored()));
    FragmentKeepsSound(s, id, cmd.bucket, cmd.key, Durable(cmd.Stored()));
    assert Scan(s') == Scan(s) && r.flags.Keys == Scan(s).Keys;
    TidyWritten(r, s, s', Scan(s), cmd, b);
  }

  lemma TidyMoved(w: World, id: nat, r: Room, s: Store, channel: seq<ChannelMessage>, b: u64)
    requires TidyStore(s, Scan(s), b) && TidyRoom(r, s, b)
    ensures Tidy(WithStore(WithRoom(w, id, r), id, s).(channel := channel), id, b)
  {
  }

  lemma TidyWrite(w: World, c: Command, id: nat, b: u64)
    requires Agrees(w) && Tidy(w, id, b) && Careful(w, Issue(c), id, b)
    requires c.WriteFragment? && c.room == id && id in w.rooms && w.rooms[id].loaded
    ensures Tidy(DoWriteFragment(w, id, c.bucket, c.key, c.value).0, id, b)
  {
    PairOf(w, id);
    var r, s, cmd := w.rooms[id], w.dbs[id], Set(c.bucket, c.key, c.value);
    WritePair(r, s, id, c.bucket, c.key, c.value);
    WriteMoves(w, id, c.bucket, c.key, c.value);
    TidyFragment(r, s, id, cmd, b);
    TidyMoved(w, id, Put(r, cmd), PutFragment(s, c.bucket, c.key, Durable(c.value)),
              DoWriteFragment(w, id, c.bucket, c.key, c.value).0.channel, b);
  }

  lemma TidyLoad(w: World, id: nat, b: u64)
    requires Agrees(w) && Tidy(w, id, b)
    ensures Tidy(DoLoadRoom(w, id).0, id, b)
  {
    LoadAgrees(w, id);
    EmptyIsTidy(id, b);
    if id in w.rooms {
      RestoredEntries(w.rooms[id], w.dbs[id], id);
      assert TidyRoom(Restored(w.rooms[id], w.dbs[id], id, Scan(w.dbs[id])), w.dbs[id], b);
    }
  }

  /** This room and its store are as they were. */
  ghost predicate Untouched(w: World, w': World, id: nat) {
    && Lookup(w'.rooms, id) == Lookup(w.rooms, id)
    && Lookup(w'.dbs, id) == Lookup(w.dbs, id)
  }

  lemma OtherBucketCommand(w: World, c: Command, id: nat)
    requires c.NewBucket? || c.DeleteBucket? || c.NewMember? || c.DeleteMember?
    requires c.room != id || id !in w.rooms || !w.rooms[id].loaded
    ensures Untouched(w, Handle(w, c).0, id)
  {
    var ready := OpenDb(w, c.room);
    assert c.room != id ==> Untouched(w, ready, id);
  }

  /** A command on another room, or one that is refused, leaves this room and its store alone. */
  lemma OtherRoomUntouched(w: World, c: Command, id: nat)
    requires !c.NewRoomCommand? && (c.room != id || id !in w.rooms || !w.rooms[id].loaded)
    requires c.LoadRoom? || c.UnloadRoom? ==> c.room != id
    ensures Untouched(w, Handle(w, c).0, id)
  {
    if c.NewBucket? || c.DeleteBucket? || c.NewMember? || c.DeleteMember? {
      OtherBucketCommand(w, c, id);
    }
  }

  /** A command on this room, which is loaded. */
  lemma TidyOwnCommand(w: World, c: Command, id: nat, b: u64)
    requires Agrees(w) && Tidy(w, id, b) && Careful(w, Issue(c), id, b)
    requires !c.NewRoomCommand? && !c.LoadRoom? && !c.UnloadRoom? && c.room == id && id in w.rooms && w.rooms[id].loaded
    ensures Tidy(Handle(w, c).0, id, b)
  {
    match c
    case NewBucket(_, _, _) => TidyBucketCommand(w, c, id, b);
    case DeleteBucket(_, _) => TidyBucketCommand(w, c, id, b);
    case NewMember(_, _) => TidyMemberCommand(w, c, id, b);
    case DeleteMember(_, _) => TidyMemberCommand(w, c, id, b);
    case WriteFragment(_, _, _, _) => TidyWrite(w, c, id, b);
    case ReadFragment(_, _, _) =>
  }

  lemma TidyElsewhere(w: World, c: Command, id: nat, b: u64)
    requires Tidy(w, id, b) && !c.NewRoomCommand? && (c.room != id || id !in w.rooms || !w.rooms[id].loaded)
    requires c.LoadRoom? || c.UnloadRoom? ==> c.room != id
    ensures Tidy(Handle(w, c).0, id, b)
  {
    OtherRoomUntouched(w, c, id);
    assert Untouched(w, Handle(w, c).0, id);
  }

  lemma TidyCommand(w: World, c: Command, id: nat, b: u64)
    requires Agrees(w) && Tidy(w, id, b) && Careful(w, Issue(c), id, b)
    ensures Tidy(Handle(w, c).0, id, b)
  {
    if c.NewRoomCommand? {
      EmptyIsTidy(id, b);
    } else if c.LoadRoom? && c.room == id {
      TidyLoad(w, id, b);
    } else if c.UnloadRoom? && c.room == id {
    } else if c.room != id || id !in w.rooms || !w.rooms[id].loaded {
      TidyElsewhere(w, c, id, b);
    } else {
      TidyOwnCommand(w, c, id, b);
    }
  }

  lemma TidyStep(w: World, step: WorldStep, id: nat, b: u64)
    requires Agrees(w) && Tidy(w, id, b) && Careful(w, step, id, b)
    ensures Tidy(Next(w, step), id, b)
  {
    if step.Issue? {
      TidyCommand(w, step.command, id, b);
    }
  }

  lemma {:induction false} CarefulRunsAreTidy(steps: seq<WorldStep>, id: nat, b: u64)
    requires CarefulRun(steps, id, b)
    ensures Tidy(After(steps), id, b)
  {
    if steps != [] {
      var init, last := steps[..|steps| - 1], steps[|steps| - 1];
      assert forall i | 0 <= i < |init| :: init[i] == steps[i] && init[..i] == steps[..i];
      assert Careful(After(steps[..|steps| - 1]), steps[|steps| - 1], id, b);
      CarefulRunsAreTidy(init, id, b);
      AlwaysAgrees(init);
      TidyStep(After(init), last, id, b);
    }
  }

  /**
   Reload looks the same: in a run where the bucket is declared before it is written and never deleted, every read
   of it answers the same before and after unload and load, and after a cold start and load.
   */
  lemma ReloadLooksTheSame(steps: seq<WorldStep>, id: nat, b: u64, k: string)
    requires CarefulRun(steps, id, b)
    requires id in After(steps).rooms && After(steps).rooms[id].loaded
    ensures Answer(Reloaded(After(steps), id), id, b, k) == Answer(After(steps), id, b, k)
    ensures Answer(ColdStarted(After(steps), id), id, b, k) == Answer(After(steps), id, b, k)
  {
    AlwaysAgrees(steps);
    CarefulRunsAreTidy(steps, id, b);
    ReloadExact(After(steps), id, b, k);
  }
}
