/**
 The kernel's command arms as functions on the whole server state: rooms in memory, one store per room, the cache
 of bucket records and the notification channel. The class in Kernel is proved against these functions.
 */
module WorldModel {
  import opened Basics
  import opened Protocol
  import opened RoomModel
  import opened StoreModel

  datatype World = World(
    rooms: map<nat, Room>,
    nextRoomId: nat,
    dbs: map<nat, Store>,
    cache: map<nat, Records>,
    channel: seq<ChannelMessage>)

  datatype Command =
    | NewRoomCommand
    | NewBucket(room: nat, bucket: u64, name: string)
    | DeleteBucket(room: nat, bucket: u64)
    | NewMember(room: nat, member: string)
    | DeleteMember(room: nat, member: string)
    | WriteFragment(room: nat, bucket: u64, key: string, value: Value)
    | ReadFragment(room: nat, bucket: u64, key: string)
    | LoadRoom(room: nat)
    | UnloadRoom(room: nat)

  datatype Response =
    | NewRoomResponse(id: nat)
    | NewBucketResponse
    | DeleteBucketResponse
    | NewMemberResponse
    | DeleteMemberResponse
    | FragmentWriteResponse
    | FragmentReadResponse(data: Option<Value>)
    | LoadRoomResponse(status: Status)
    | UnloadRoomResponse(status: Status)

  const NOT_LOADED := LoadRoomResponse(Failed(RoomNotLoaded))

  // ---------- effects on one room's store and cache entry ----------

  function OpenDb(w: World, id: nat): World {
    if id in w.dbs then w else w.(dbs := w.dbs[id := map[]])
  }

  function PersistBucket(w: World, id: nat, rec: BucketRecord): World
    requires id in w.dbs
  {
    w.(dbs := w.dbs[id := PutBucket(w.dbs[id], id, rec)],
       cache := if id in w.cache then w.cache[id := WithRecord(w.cache[id], rec)] else w.cache)
  }

  function UnpersistBucket(w: World, id: nat, b: u64): World
    requires id in w.dbs
  {
    w.(dbs := w.dbs[id := RemoveBucket(w.dbs[id], id, b)],
       cache := if id in w.cache then w.cache[id := w.cache[id] - {b}] else w.cache)
  }

  function WithStore(w: World, id: nat, s: Store): World {
    w.(dbs := w.dbs[id := s])
  }

  function WithRoom(w: World, id: nat, r: Room): World {
    w.(rooms := w.rooms[id := r])
  }

  // ---------- the command arms ----------

  function DoNewRoom(w: World): (World, Response) {
    var id := w.nextRoomId;
    (OpenDb(WithRoom(w, id, NewRoom(true)).(nextRoomId := id + 1), id), NewRoomResponse(id))
  }

  function RecordFor(b: u64, name: string): BucketRecord {
    BucketRecord(b, if name == "" then None else Some(name), 0)
  }

  function DoNewBucket(w: World, id: nat, b: u64, name: string): (World, Response) {
    if id !in w.rooms then (w, NewBucketResponse)
    else if !w.rooms[id].loaded then (w, NOT_LOADED)
    else
      var ready := OpenDb(WithRoom(w, id, AddBucket(w.rooms[id], b, Trim(name))), id);
      (PersistBucket(ready, id, RecordFor(b, Trim(name))), NewBucketResponse)
  }

  function DoDeleteBucket(w: World, id: nat, b: u64): (World, Response) {
    if id !in w.rooms then (w, DeleteBucketResponse)
    else if !w.rooms[id].loaded then (w, NOT_LOADED)
    else
      var ready := OpenDb(WithRoom(w, id, DropBucket(w.rooms[id], b)), id);
      (UnpersistBucket(ready, id, b), DeleteBucketResponse)
  }

  function DoNewMember(w: World, id: nat, member: string): (World, Response) {
    var name := Trim(member);
    if id !in w.rooms then (w, NewMemberResponse)
    else if !w.rooms[id].loaded then (w, NOT_LOADED)
    else
      var r := w.rooms[id];
      var ready := OpenDb(WithRoom(w, id, if name == "" then r else r.(members := r.members + {name})), id);
      (WithStore(ready, id, AddMember(ready.dbs[id], id, name)), NewMemberResponse)
  }

  function DoDeleteMember(w: World, id: nat, member: string): (World, Response) {
    var name := Trim(member);
    if id !in w.rooms then (w, DeleteMemberResponse)
    else if !w.rooms[id].loaded then (w, NOT_LOADED)
    else
      var r := w.rooms[id];
      var ready := OpenDb(WithRoom(w, id, r.(members := r.members - {name})), id);
      (WithStore(ready, id, RemoveMember(ready.dbs[id], id, name)), DeleteMemberResponse)
  }

  /** What reaches the store: a null is a deletion. */
  function Durable(v: Value): Option<Value> {
    if v == Null then None else Some(v)
  }

  function DoWriteFragment(w: World, id: nat, b: u64, k: string, v: Value): (World, Response) {
    if id !in w.rooms || !w.rooms[id].loaded then (w, NOT_LOADED)
    else
      var r := Apply(w.rooms[id], Set(b, k, v)).0;
      var ready := OpenDb(WithRoom(w, id, r), id);
      var stored := WithStore(ready, id, PutFragment(ready.dbs[id], b, k, Durable(v)));
      var update := DataUpdate(b, k, Some(v), if r.ioLocked then 0 else r.counter);
      (stored.(channel := TrySend(w.channel, Broadcast(update))), FragmentWriteResponse)
  }

  function Answer(w: World, id: nat, b: u64, k: string): Response {
    if id !in w.rooms then FragmentReadResponse(None)
    else match GetFragment(w.rooms[id], b, k)
      case Found(v, _) => FragmentReadResponse(Some(v))
      case Missing(e) => if e == RoomNotLoaded then NOT_LOADED else FragmentReadResponse(None)
  }

  /** The room as its store describes it. */
  function Restored(r: Room, s: Store, id: nat, records: Records): Room {
    Load(r,
         map b | b in records :: BucketFragments(s, b),
         map b | b in records && records[b].title.Some? :: records[b].title.value,
         map b | b in records :: records[b].flags,
         StoredMembers(s, id))
  }

  function DoLoadRoom(w: World, id: nat): (World, Response) {
    var ready := OpenDb(w, id);
    var s := ready.dbs[id];
    var records := LoadBuckets(s, id, Lookup(w.cache, id));
    var cached := ready.(cache := w.cache[id := records]);
    if id !in w.rooms then (cached, LoadRoomResponse(Failed(RoomNotFound)))
    else (WithRoom(cached, id, Restored(w.rooms[id], s, id, records)), LoadRoomResponse(Done))
  }

  function DoUnloadRoom(w: World, id: nat): (World, Response) {
    if id !in w.rooms then (w, UnloadRoomResponse(Failed(RoomNotFound)))
    else (WithRoom(w, id, Unload(w.rooms[id])), UnloadRoomResponse(Done))
  }

  function Handle(w: World, c: Command): (World, Response) {
    match c
    case NewRoomCommand => DoNewRoom(w)
    case NewBucket(id, b, name) => DoNewBucket(w, id, b, name)
    case DeleteBucket(id, b) => DoDeleteBucket(w, id, b)
    case NewMember(id, m) => DoNewMember(w, id, m)
    case DeleteMember(id, m) => DoDeleteMember(w, id, m)
    case WriteFragment(id, b, k, v) => DoWriteFragment(w, id, b, k, v)
    case ReadFragment(id, b, k) => (w, Answer(w, id, b, k))
    case LoadRoom(id) => DoLoadRoom(w, id)
    case UnloadRoom(id) => DoUnloadRoom(w, id)
  }

  // ---------- everything else that can happen ----------

  ghost function MaxId(ids: set<nat>): nat {
    if ids == {} then 0
    else
      var id :| id in ids;
      var rest := MaxId(ids - {id});
      if id > rest then id else rest
  }

  /** A cold start: every store found becomes an unloaded stub, the cache and the channel are empty. */
  ghost function Restart(w: World): World {
    World(map id | id in w.dbs :: NewRoom(false), 1 + MaxId(w.dbs.Keys), w.dbs, map[], [])
  }

  /** `Evict` is the cache dropping any entries; `Drain` is the forwarder taking messages from the channel. */
  datatype WorldStep =
    | Issue(command: Command)
    | DeleteRoom(id: nat)
    | Evict(ids: set<nat>)
    | Drain(count: nat)
    | ColdStart

  ghost function Next(w: World, step: WorldStep): World {
    match step
    case Issue(c) => Handle(w, c).0
    case DeleteRoom(id) => w.(rooms := w.rooms - {id})
    case Evict(ids) => w.(cache := w.cache - ids)
    case Drain(n) => w.(channel := if n <= |w.channel| then w.channel[n..] else [])
    case ColdStart => Restart(w)
  }

  const FIRST_WORLD := World(map[], 1, map[], map[], [])

  ghost function After(steps: seq<WorldStep>): World {
    if steps == [] then FIRST_WORLD else Next(After(steps[..|steps| - 1]), steps[|steps| - 1])
  }
}
