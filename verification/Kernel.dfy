/**
 The kernel: executes commands against the rooms in memory, the stores and the notification channel. Each arm
 updates the objects in place and is proved to do what the matching function of WorldModel says.
 */
module Kernel {
  import opened Basics
  import opened Protocol
  import opened RoomModel
  import opened StoreModel
  import opened StoreTheorems
  import opened AppState
  import opened Persistence
  import opened WorldModel
  import opened Downstream = Hub
  import WorldTheorems

  // ---------- loading: the list of bucket definitions ----------

  ghost predicate OwnIds(records: Records) {
    forall b :: b in records ==> records[b].id == b
  }

  function StoredFor(records: Records, fragments: map<u64, map<string, Value>>, todo: set<u64>)
    : map<u64, map<string, Value>>
  {
    map b | b in records && b !in todo :: if b in fragments then fragments[b] else map[]
  }

  function LabelsFor(records: Records, todo: set<u64>): map<u64, string> {
    map b | b in records && b !in todo && records[b].title.Some? :: records[b].title.value
  }

  function FlagsFor(records: Records, todo: set<u64>): map<u64, nat> {
    map b | b in records && b !in todo :: records[b].flags
  }

  lemma VisitRecord(records: Records, fragments: map<u64, map<string, Value>>, todo: set<u64>, b: u64)
    requires b in records && b in todo
    ensures StoredFor(records, fragments, todo - {b}) ==
            StoredFor(records, fragments, todo)[b := if b in fragments then fragments[b] else map[]]
    ensures LabelsFor(records, todo - {b}) ==
            if records[b].title.Some? then LabelsFor(records, todo)[b := records[b].title.value]
            else LabelsFor(records, todo)
    ensures FlagsFor(records, todo - {b}) == FlagsFor(records, todo)[b := records[b].flags]
  {
  }

  /** The records as a list, in the order the hash map happens to yield them. */
  method DefsOf(records: Records, ghost fragments: map<u64, map<string, Value>>) returns (defs: seq<BucketDef>)
    requires OwnIds(records)
    ensures StoredOf(defs, fragments) == StoredFor(records, fragments, {})
    ensures LabelsOf(defs) == LabelsFor(records, {}) && FlagsOf(defs) == FlagsFor(records, {})
  {
    defs := [];
    var todo := records.Keys;
    assert StoredFor(records, fragments, todo) == map[];
    assert LabelsFor(records, todo) == map[] && FlagsFor(records, todo) == map[];
    while todo != {}
      invariant todo <= records.Keys
      invariant StoredOf(defs, fragments) == StoredFor(records, fragments, todo)
      invariant LabelsOf(defs) == LabelsFor(records, todo) && FlagsOf(defs) == FlagsFor(records, todo)
    {
      var b :| b in todo;
      VisitRecord(records, fragments, todo, b);
      todo := todo - {b};
      var longer := defs + [BucketDef(records[b].id, records[b].title, records[b].flags)];
      assert longer[..|longer| - 1] == defs && longer[|longer| - 1].id == b;
      defs := longer;
    }
  }

  /** The list built from a store's records fills the room with what the store describes. */
  lemma DefsRestore(r: Room, s: Store, id: nat, records: Records, fragments: map<u64, map<string, Value>>)
    requires forall b: u64 :: (if b in fragments then fragments[b] else map[]) == BucketFragments(s, b)
    ensures Load(r, StoredFor(records, fragments, {}), LabelsFor(records, {}), FlagsFor(records, {}),
                 StoredMembers(s, id)) ==
            Restored(r, s, id, records)
  {
    StoredForAll(s, records, fragments);
    MetadataForAll(records);
  }

  lemma MetadataForAll(records: Records)
    ensures LabelsFor(records, {}) == map b | b in records && records[b].title.Some? :: records[b].title.value
    ensures FlagsFor(records, {}) == map b | b in records :: records[b].flags
  {
  }

  lemma StoredForAll(s: Store, records: Records, fragments: map<u64, map<string, Value>>)
    requires forall b: u64 :: (if b in fragments then fragments[b] else map[]) == BucketFragments(s, b)
    ensures StoredFor(records, fragments, {}) == map b | b in records :: BucketFragments(s, b)
  {
  }

  // ---------- initial sync ----------

  /** The live fragment (b, k), as initial sync sends it. */
  function SyncUpdate(b: u64, k: string, e: Entry): DataUpdate {
    DataUpdate(b, k, Some(e.value), e.version)
  }

  function SetOf(s: seq<u64>): set<u64> {
    set b | b in s
  }

  /** A list of updates that names exactly the live fragments of the requested buckets. */
  ghost predicate SyncList(r: Room, requested: set<u64>, updates: seq<DataUpdate>) {
    && (forall i | 0 <= i < |updates| ::
          var u := updates[i];
          u.bucket in requested && EntryAt(r, u.bucket, u.key).Some? && EntryAt(r, u.bucket, u.key).value.value != Null
          && u == SyncUpdate(u.bucket, u.key, EntryAt(r, u.bucket, u.key).value))
    && (forall b: u64, k :: b in requested && EntryAt(r, b, k).Some? && EntryAt(r, b, k).value.value != Null
          ==> SyncUpdate(b, k, EntryAt(r, b, k).value) in updates)
  }

  /** What `try_send` leaves in the channel when a list of targeted updates is sent until the first failure. */
  function SendAll(channel: seq<ChannelMessage>, conn: u64, updates: seq<DataUpdate>): seq<ChannelMessage>
    decreases |updates|
  {
    if updates == [] || |channel| >= CHANNEL_CAPACITY then channel
    else SendAll(channel + [Targeted(conn, updates[0])], conn, updates[1..])
  }

  // ---------- the stages of a write ----------

  function WriteReady(w: World, id: nat, b: u64, k: string, v: Value): World
    requires id in w.rooms
  {
    OpenDb(WithRoom(w, id, Apply(w.rooms[id], Set(b, k, v)).0), id)
  }

  function WriteStored(w: World, id: nat, b: u64, k: string, v: Value): World
    requires id in w.rooms
  {
    var ready := WriteReady(w, id, b, k, v);
    WithStore(ready, id, PutFragment(ready.dbs[id], b, k, Durable(v)))
  }

  lemma WriteStages(w: World, id: nat, b: u64, k: string, v: Value)
    requires id in w.rooms && w.rooms[id].loaded
    ensures var stored := WriteStored(w, id, b, k, v);
      var r := stored.rooms[id];
      var update := DataUpdate(b, k, Some(v), if r.ioLocked then 0 else r.counter);
      DoWriteFragment(w, id, b, k, v) ==
      (stored.(channel := TrySend(stored.channel, Broadcast(update))), FragmentWriteResponse)
  {
  }

  class SyncpondKernel {
    const state: AppState
    const persistence: PersistenceManager
    var channel: seq<ChannelMessage>

    ghost predicate Valid()
      reads this, state, persistence
    {
      state.Valid() && persistence.Valid()
    }

    ghost function View(): World
      reads this, state, state.rooms.Values, persistence
    {
      World(state.Rooms(), state.nextRoomId, persistence.dbs, persistence.bucketCache, channel)
    }

    constructor (state: AppState, persistence: PersistenceManager)
      ensures this.state == state && this.persistence == persistence && channel == []
    {
      this.state, this.persistence, channel := state, persistence, [];
    }

    // ---------- what an arm does to one room, one store, one cache entry ----------

    method Open(id: nat)
      requires Valid()
      modifies persistence
      ensures Valid() && View() == OpenDb(old(View()), id)
    {
      persistence.OpenRoomDb(id);
    }

    method DeclareInMemory(id: nat, b: u64, trimmed: string)
      requires Valid() && id in state.rooms
      modifies state.Cell(id)
      ensures Valid() && View() == WithRoom(old(View()), id, AddBucket(old(View()).rooms[id], b, trimmed))
    {
      var room := state.rooms[id];
      room.buckets := room.buckets[b := if b in room.buckets then room.buckets[b] else map[]];
      room.bucketFlags := room.bucketFlags[b := if b in room.bucketFlags then room.bucketFlags[b] else 0];
      if trimmed != "" {
        room.bucketLabels := room.bucketLabels[b := trimmed];
      }
      assert room.View() == AddBucket(old(room.View()), b, trimmed);
      assert state.Rooms() == old(state.Rooms())[id := room.View()];
    }

    method DropInMemory(id: nat, b: u64)
      requires Valid() && id in state.rooms
      modifies state.Cell(id)
      ensures Valid() && View() == WithRoom(old(View()), id, DropBucket(old(View()).rooms[id], b))
    {
      var room := state.rooms[id];
      room.buckets := room.buckets - {b};
      room.bucketLabels := room.bucketLabels - {b};
      room.bucketFlags := room.bucketFlags - {b};
      assert room.View() == DropBucket(old(room.View()), b);
      assert state.Rooms() == old(state.Rooms())[id := room.View()];
    }

    method SetInMemory(id: nat, b: u64, key: string, value: Value)
      requires Valid() && id in state.rooms
      modifies state.Cell(id)
      ensures Valid() && View() == WithRoom(old(View()), id, Apply(old(View()).rooms[id], Set(b, key, value)).0)
    {
      var _ := state.SetFragment(id, b, key, value);
    }

    method SetMembers(id: nat, names: set<string>)
      requires Valid() && id in state.rooms
      modifies state.Cell(id)
      ensures Valid() && View() == WithRoom(old(View()), id, old(View()).rooms[id].(members := names))
    {
      var room := state.rooms[id];
      room.members := names;
      assert state.Rooms() == old(state.Rooms())[id := room.View()];
    }

    method SaveBucket(id: nat, b: u64, trimmed: string)
      requires Valid() && id in persistence.dbs
      modifies persistence
      ensures Valid() && View() == PersistBucket(old(View()), id, RecordFor(b, trimmed))
    {
      persistence.PersistBucket(id, b, if trimmed == "" then None else Some(trimmed), 0);
    }

    method ForgetBucket(id: nat, b: u64)
      requires Valid() && id in persistence.dbs
      modifies persistence
      ensures Valid() && View() == UnpersistBucket(old(View()), id, b)
    {
      persistence.UnpersistBucket(id, b);
    }

    method SaveMember(id: nat, trimmed: string)
      requires Valid() && id in persistence.dbs
      modifies persistence
      ensures Valid() && View() == WithStore(old(View()), id, AddMember(old(View()).dbs[id], id, trimmed))
    {
      persistence.PersistMember(id, trimmed);
    }

    method ForgetMember(id: nat, trimmed: string)
      requires Valid() && id in persistence.dbs
      modifies persistence
      ensures Valid() && View() == WithStore(old(View()), id, RemoveMember(old(View()).dbs[id], id, trimmed))
    {
      persistence.UnpersistMember(id, trimmed);
    }

    method SaveFragment(id: nat, b: u64, key: string, value: Value)
      requires Valid() && id in persistence.dbs
      modifies persistence
      ensures Valid() && View() == WithStore(old(View()), id, PutFragment(old(View()).dbs[id], b, key, Durable(value)))
    {
      persistence.PersistFragment(id, b, key, if value == Null then None else Some(value));
    }

    // ---------- the command arms ----------

    method CreateInMemory() returns (id: nat)
      requires Valid()
      modifies state
      ensures Valid() && fresh(state.rooms.Values - old(state.rooms.Values)) && id == old(View()).nextRoomId
      ensures View() == WithRoom(old(View()), id, NewRoom(true)).(nextRoomId := id + 1)
    {
      id := state.CreateRoom();
    }

    method HandleNewRoom() returns (response: Response)
      requires Valid()
      modifies state, persistence
      ensures Valid() && fresh(state.rooms.Values - old(state.rooms.Values))
      ensures (View(), response) == DoNewRoom(old(View()))
    {
      var id := CreateInMemory();
      Open(id);
      return NewRoomResponse(id);
    }

    method HandleNewBucket(id: nat, b: u64, name: string) returns (response: Response)
      requires Valid()
      modifies state.Cell(id), persistence
      ensures Valid() && (View(), response) == DoNewBucket(old(View()), id, b, name)
    {
      if id !in state.rooms { return NewBucketResponse; }
      if !state.rooms[id].loaded { return NOT_LOADED; }
      var trimmed := Trim(name);
      DeclareInMemory(id, b, trimmed);
      Open(id);
      SaveBucket(id, b, trimmed);
      return NewBucketResponse;
    }

    method HandleDeleteBucket(id: nat, b: u64) returns (response: Response)
      requires Valid()
      modifies state.Cell(id), persistence
      ensures Valid() && (View(), response) == DoDeleteBucket(old(View()), id, b)
    {
      if id !in state.rooms { return DeleteBucketResponse; }
      if !state.rooms[id].loaded { return NOT_LOADED; }
      DropInMemory(id, b);
      Open(id);
      ForgetBucket(id, b);
      return DeleteBucketResponse;
    }

    method HandleNewMember(id: nat, member: string) returns (response: Response)
      requires Valid()
      modifies state.Cell(id), persistence
      ensures Valid() && (View(), response) == DoNewMember(old(View()), id, member)
    {
      var trimmed := Trim(member);
      if id !in state.rooms { return NewMemberResponse; }
      if !state.rooms[id].loaded { return NOT_LOADED; }
      if trimmed != "" {
        SetMembers(id, state.rooms[id].members + {trimmed});
      }
      assert trimmed == "" ==> View() == WithRoom(View(), id, View().rooms[id]);
      Open(id);
      SaveMember(id, trimmed);
      return NewMemberResponse;
    }

    method HandleDeleteMember(id: nat, member: string) returns (response: Response)
      requires Valid()
      modifies state.Cell(id), persistence
      ensures Valid() && (View(), response) == DoDeleteMember(old(View()), id, member)
    {
      var trimmed := Trim(member);
      if id !in state.rooms { return DeleteMemberResponse; }
      if !state.rooms[id].loaded { return NOT_LOADED; }
      SetMembers(id, state.rooms[id].members - {trimmed});
      Open(id);
      ForgetMember(id, trimmed);
      return DeleteMemberResponse;
    }

    method HandleWriteFragment(id: nat, b: u64, key: string, value: Value) returns (response: Response)
      requires Valid()
      modifies this, state.Cell(id), persistence
      ensures Valid() && (View(), response) == DoWriteFragment(old(View()), id, b, key, value)
    {
      var isLoaded := state.IsRoomLoaded(id);
      if !isLoaded { return NOT_LOADED; }
      ghost var w := View();
      WriteStages(w, id, b, key, value);
      SetInMemory(id, b, key, value);
      Open(id);
      assert View() == WriteReady(w, id, b, key, value);
      SaveFragment(id, b, key, value);
      assert View() == WriteStored(w, id, b, key, value);
      BroadcastWrite(id, b, key, value);
      return FragmentWriteResponse;
    }

    /** Stamp the update with the room's counter as it is now and put it on the channel, if there is room. */
    method BroadcastWrite(id: nat, b: u64, key: string, value: Value)
      requires Valid() && id in state.rooms
      modifies this
      ensures Valid()
      ensures var r := old(View()).rooms[id];
        View() == old(View()).(channel := TrySend(old(channel),
                                 Broadcast(DataUpdate(b, key, Some(value), if r.ioLocked then 0 else r.counter))))
    {
      var version := state.RoomVersion(id);
      var update := DataUpdate(b, key, Some(value), if version.Counted? then version.counter else 0);
      if |channel| < CHANNEL_CAPACITY {
        channel := channel + [Broadcast(update)];
      }
    }

    method HandleReadFragment(id: nat, b: u64, key: string) returns (response: Response)
      requires Valid()
      ensures response == Answer(View(), id, b, key)
    {
      var result := state.Fetch(id, b, key);
      match result
      case Found(value, _) => return FragmentReadResponse(Some(value));
      case Missing(e) =>
        if e == RoomNotLoaded { return NOT_LOADED; }
        return FragmentReadResponse(None);
    }

    method HandleLoadRoom(id: nat) returns (response: Response)
      requires Valid()
      modifies state.Cell(id), persistence
      ensures Valid() && (View(), response) == DoLoadRoom(old(View()), id)
    {
      Open(id);
      ghost var ready, s := View(), persistence.dbs[id];
      var records := persistence.FetchBuckets(id);
      assert View() == ready.(cache := ready.cache[id := records]);
      ScanOwnsIds(s, id);
      var status := Fill(id, records);
      return LoadRoomResponse(status);
    }

    /** Read members and fragments from the store and put them into the room, if it exists. */
    method Fill(id: nat, records: Records) returns (status: Status)
      requires Valid() && id in persistence.dbs && OwnIds(records)
      modifies state.Cell(id)
      ensures Valid()
      ensures id !in state.rooms ==> status == Failed(RoomNotFound) && View() == old(View())
      ensures id in state.rooms ==>
                status == Done &&
                View() == WithRoom(old(View()), id, Restored(old(View()).rooms[id], persistence.dbs[id], id, records))
    {
      var members := persistence.LoadMembers(id);
      var fragments := persistence.LoadAllFragments(id);
      var defs := DefsOf(records, fragments);
      if id in state.rooms {
        DefsRestore(state.Rooms()[id], persistence.dbs[id], id, records, fragments);
      }
      ghost var w := View();
      status := state.LoadRoomData(id, defs, members, fragments);
      assert id in state.rooms ==>
          state.Rooms() == w.rooms[id := Restored(w.rooms[id], persistence.dbs[id], id, records)];
    }

    method HandleUnloadRoom(id: nat) returns (response: Response)
      requires Valid()
      modifies state.Cell(id)
      ensures Valid() && (View(), response) == DoUnloadRoom(old(View()), id)
    {
      var status := state.UnloadRoom(id);
      return UnloadRoomResponse(status);
    }

    /** Every command leaves the server, and answers, as the command function says. */
    method HandleCommand(c: Command) returns (response: Response)
      requires Valid()
      modifies this, state, state.rooms.Values, persistence
      ensures Valid() && fresh(state.rooms.Values - old(state.rooms.Values))
      ensures (View(), response) == Handle(old(View()), c)
    {
      match c
      case NewRoomCommand => response := HandleNewRoom();
      case NewBucket(id, b, name) => response := HandleNewBucket(id, b, name);
      case DeleteBucket(id, b) => response := HandleDeleteBucket(id, b);
      case NewMember(id, m) => response := HandleNewMember(id, m);
      case DeleteMember(id, m) => response := HandleDeleteMember(id, m);
      case WriteFragment(id, b, key, value) => response := HandleWriteFragment(id, b, key, value);
      case ReadFragment(id, b, key) => response := HandleReadFragment(id, b, key);
      case LoadRoom(id) => response := HandleLoadRoom(id);
      case UnloadRoom(id) => response := HandleUnloadRoom(id);
    }

    method DropRoom(id: nat) returns (status: Status)
      requires Valid()
      modifies state
      ensures Valid() && View() == Next(old(View()), WorldModel.DeleteRoom(id))
      ensures status == if id in old(View().rooms) then Done else Failed(RoomNotFound)
    {
      status := state.DeleteRoom(id);
    }

    /** Everything live in the requested buckets, collected under the room's lock in any order. */
    method CollectSync(room: RoomState, requested: seq<u64>) returns (updates: seq<DataUpdate>)
      ensures SyncList(room.View(), SetOf(requested), updates)
    {
      updates := [];
      for i := 0 to |requested|
        invariant SyncList(room.View(), SetOf(requested[..i]), updates)
      {
        var b := requested[i];
        assert SetOf(requested[..i + 1]) == SetOf(requested[..i]) + {b};
        if b in room.buckets {
          var more := CollectBucket(room, b);
          SyncListGrows(room.View(), SetOf(requested[..i]), b, updates, more);
          updates := updates + more;
        } else {
          SyncListGrows(room.View(), SetOf(requested[..i]), b, updates, []);
          assert updates + [] == updates;
        }
      }
      assert requested[..|requested|] == requested;
    }

    method CollectBucket(room: RoomState, b: u64) returns (updates: seq<DataUpdate>)
      requires b in room.buckets
      ensures SyncList(room.View(), {b}, updates)
    {
      updates := [];
      var fragments := room.buckets[b];
      var todo := fragments.Keys;
      while todo != {}
        invariant todo <= fragments.Keys
        invariant forall u | u in updates ::
                    u.bucket == b && u.key in fragments && fragments[u.key].value != Null
                    && u == SyncUpdate(b, u.key, fragments[u.key])
        invariant forall k | k in fragments && k !in todo && fragments[k].value != Null ::
                    SyncUpdate(b, k, fragments[k]) in updates
      {
        var key :| key in todo;
        todo := todo - {key};
        if fragments[key].value != Null {
          updates := updates + [DataUpdate(b, key, Some(fragments[key].value), fragments[key].version)];
        }
      }
    }

    /** Initial sync: ask the hub for the connection's room, collect, then send until a send fails. */
    method HandleClientConnected(hub: WsHub, conn: u64, requested: seq<u64>) returns (ghost updates: seq<DataUpdate>)
      requires Valid()
      modifies this
      ensures View() == old(View()).(channel := SendAll(old(channel), conn, updates))
      ensures if conn in hub.connections && hub.connections[conn].room in state.rooms
              then SyncList(state.Rooms()[hub.connections[conn].room], SetOf(requested), updates)
              else updates == []
    {
      updates := [];
      var roomOfConn := hub.GetClientRoomId(conn);
      if roomOfConn.None? || roomOfConn.value !in state.rooms { return; }
      var list := CollectSync(state.rooms[roomOfConn.value], requested);
      updates := list;
      var i := 0;
      while i < |list|
        invariant i <= |list|
        invariant View() == old(View()).(channel := channel)
        invariant SendAll(channel, conn, list[i..]) == SendAll(old(channel), conn, list)
      {
        if |channel| >= CHANNEL_CAPACITY { return; }
        assert list[i..][0] == list[i] && list[i..][1..] == list[i + 1..];
        channel := channel + [Targeted(conn, list[i])];
        i := i + 1;
      }
    }
  }

  method ListOf(buckets: set<u64>) returns (list: seq<u64>)
    ensures SetOf(list) == buckets
  {
    list := [];
    var todo := buckets;
    while todo != {}
      invariant todo <= buckets && SetOf(list) == buckets - todo
    {
      var b :| b in todo;
      assert SetOf(list + [b]) == SetOf(list) + {b} == buckets - (todo - {b});
      todo := todo - {b};
      list := list + [b];
    }
  }

  /**
   An authenticated connection is registered and the kernel told: the client is synced with the live fragments of its
   own room, in the buckets of its token, bucket 0 and never the reserved one.
   */
  method ConnectClient(kernel: SyncpondKernel, hub: WsHub, room: nat, claims: set<u64>, reserved: u64)
    returns (conn: Option<u64>, ghost updates: seq<DataUpdate>)
    requires kernel.Valid() && hub.Valid()
    modifies kernel, hub
    ensures conn.None? ==> kernel.View() == old(kernel.View())
    ensures conn.Some? ==>
              kernel.View() == old(kernel.View()).(channel := SendAll(old(kernel.channel), conn.value, updates))
    ensures conn.Some? ==> conn.value in hub.connections && hub.connections[conn.value].room == room
    ensures conn.Some? && room in kernel.state.rooms ==>
              SyncList(kernel.state.Rooms()[room], claims + {0} - {reserved}, updates)
    ensures conn.Some? && room !in kernel.state.rooms ==> updates == []
  {
    updates := [];
    conn := hub.Register(room, claims, reserved);
    if conn.Some? {
      var requested := ListOf(claims + {0} - {reserved});
      updates := kernel.HandleClientConnected(hub, conn.value, requested);
    }
  }

  /** Startup over the stores found on disk: open them, register a stub for each, and start with an empty channel. */
  method Startup(existing: map<nat, Store>) returns (kernel: SyncpondKernel)
    requires forall id :: id in existing ==> Sound(existing[id], id)
    ensures fresh(kernel) && fresh(kernel.state) && fresh(kernel.state.rooms.Values) && fresh(kernel.persistence)
    ensures kernel.Valid() && kernel.View() == Restart(World(map[], 1, existing, map[], []))
  {
    var manager := new PersistenceManager(existing);
    var app := new AppState();
    var ids := manager.ListRoomIds();
    app.RegisterStubs(ids);
    RestartedWorld(ids, existing);
    ghost var rooms := app.Rooms();
    kernel := new SyncpondKernel(app, manager);
    assert kernel.View() == World(rooms, app.nextRoomId, existing, map[], []);
  }

  lemma ScanOwnsIds(s: Store, id: nat)
    requires Sound(s, id)
    ensures OwnIds(Scan(s))
  {
    ScanExact(s, id);
  }

  /** The world that startup builds from the ids it finds. */
  lemma RestartedWorld(ids: seq<nat>, existing: map<nat, Store>)
    requires forall id :: id in ids <==> id in existing
    ensures Restart(World(map[], 1, existing, map[], [])) ==
            World(map id | id in ids :: NewRoom(false), 1 + Largest(ids), existing, map[], [])
  {
    LargestIsMax(ids, existing.Keys);
    assert (map id | id in ids :: NewRoom(false)) == map id | id in existing :: NewRoom(false);
  }

  lemma LargestIsMax(ids: seq<nat>, keys: set<nat>)
    requires forall id :: id in ids <==> id in keys
    ensures Largest(ids) == MaxId(keys)
  {
    WorldTheorems.MaxIdBounds(keys);
    if ids != [] { assert ids[0] in keys; }
  }

  lemma SyncListGrows(r: Room, requested: set<u64>, b: u64, updates: seq<DataUpdate>, more: seq<DataUpdate>)
    requires SyncList(r, requested, updates)
    requires if b in r.buckets then SyncList(r, {b}, more) else more == []
    ensures SyncList(r, requested + {b}, updates + more)
  {
  }
}
