/**
 The sync protocol of one room as steps: writers, initial sync, the notification channel, the forwarder, the hub
 and the clients, interleaved in any order. A write takes three steps (store in memory, read the room counter,
 send), so several writes can overlap. A write that is refused at its first check takes no step.
 */
module SyncModel {
  import opened Basics
  import opened Protocol
  import opened RoomModel
  import opened RoomTheorems
  import opened HubModel
  import Kernel

  /** A write in progress, with the version its own fragment received; 0 when its set failed or was buffered. */
  datatype Writer =
    | Written(update: DataUpdate, version: nat)  // stored; the counter in `update` is still the write's own version
    | Stamped(update: DataUpdate, version: nat)  // the room counter has been read into `update`

  /** Where a connection's initial sync is; `requested` are the buckets it was registered with. */
  datatype Phase =
    | Waiting(requested: set<u64>)
    | Sending(todo: seq<DataUpdate>)
    | Synced
    | Aborted

  datatype Sync = Sync(
    room: Room,
    channel: seq<ChannelMessage>,
    hub: Hub,
    taken: map<u64, seq<DataUpdate>>,
    phase: map<u64, Phase>,
    writers: map<nat, Writer>,
    lost: bool,
    stamps: seq<(nat, nat)>)  // own version and broadcast counter of every write stamped so far

  /** `Happens` is anything else that can befall the room: buckets, transactions, load and unload. */
  datatype SyncStep =
    | Write(w: nat, bucket: u64, key: string, value: Value)
    | Stamp(w: nat)
    | Announce(w: nat)
    | Join(claims: set<u64>)
    | Collect(conn: u64, updates: seq<DataUpdate>)
    | SendNext(conn: u64)
    | GiveUp(conn: u64)
    | ForwardOne
    | TakeOne(conn: u64)
    | CloseReceiver(conn: u64)
    | Leave(conn: u64)
    | Happens(event: Event)

  const ROOM_ID: nat := 1

  function DoWrite(s: Sync, w: nat, b: u64, k: string, v: Value): Sync {
    if w in s.writers then s
    else
      var room := Apply(s.room, Set(b, k, v)).0;
      var version := if room.counter > s.room.counter then room.counter else 0;
      s.(room := room, writers := s.writers[w := Written(DataUpdate(b, k, Some(v), version), version)])
  }

  /** The counter is read as `room_version` gives it, with 0 for a busy room. */
  function DoStamp(s: Sync, w: nat): Sync {
    if w !in s.writers || s.writers[w].Stamped? then s
    else
      var Written(update, version) := s.writers[w];
      var counter := if s.room.ioLocked then 0 else s.room.counter;
      s.(writers := s.writers[w := Stamped(update.(counter := counter), version)],
         stamps := s.stamps + [(version, counter)])
  }

  function DoAnnounce(s: Sync, w: nat): Sync {
    if w !in s.writers || s.writers[w].Written? then s
    else if |s.channel| < CHANNEL_CAPACITY then
      s.(channel := s.channel + [Broadcast(s.writers[w].update)], writers := s.writers - {w})
    else s.(writers := s.writers - {w}, lost := true)
  }

  function DoJoin(s: Sync, claims: set<u64>): Sync {
    var allowed := AllowedBuckets(claims, SERVER_ONLY_BUCKET_ID);
    var (hub, conn) := Connect(s.hub, ROOM_ID, allowed);
    if conn.None? then s.(hub := hub)
    else s.(hub := hub, taken := s.taken[conn.value := []], phase := s.phase[conn.value := Waiting(allowed)])
  }

  ghost function DoCollect(s: Sync, c: u64, updates: seq<DataUpdate>): Sync {
    if c in s.phase && s.phase[c].Waiting? && Kernel.SyncList(s.room, s.phase[c].requested, updates)
    then s.(phase := s.phase[c := Sending(updates)])
    else s
  }

  function DoSendNext(s: Sync, c: u64): Sync {
    if c !in s.phase || !s.phase[c].Sending? then s
    else
      var todo := s.phase[c].todo;
      if todo == [] then s.(phase := s.phase[c := Synced])
      else if |s.channel| < CHANNEL_CAPACITY then
        s.(channel := s.channel + [Targeted(c, todo[0])], phase := s.phase[c := Sending(todo[1..])])
      else s.(phase := s.phase[c := Aborted])
  }

  function DoForward(s: Sync): Sync {
    if s.channel == [] then s else s.(hub := Forward(s.hub, s.channel[0]), channel := s.channel[1..])
  }

  function DoTake(s: Sync, c: u64): Sync {
    if c in s.hub.connections && c in s.taken && s.hub.connections[c].queue != []
    then s.(hub := Take(s.hub, c), taken := s.taken[c := s.taken[c] + [s.hub.connections[c].queue[0]]])
    else s
  }

  ghost function DoSync(s: Sync, step: SyncStep): Sync {
    match step
    case Write(w, b, k, v) => DoWrite(s, w, b, k, v)
    case Stamp(w) => DoStamp(s, w)
    case Announce(w) => DoAnnounce(s, w)
    case Join(claims) => DoJoin(s, claims)
    case Collect(c, updates) => DoCollect(s, c, updates)
    case SendNext(c) => DoSendNext(s, c)
    case GiveUp(c) => if c in s.phase then s.(phase := s.phase[c := Aborted]) else s
    case ForwardOne => DoForward(s)
    case TakeOne(c) => DoTake(s, c)
    case CloseReceiver(c) => s.(hub := Close(s.hub, c))
    case Leave(c) => s.(hub := RemoveClient(s.hub, c))
    case Happens(e) => s.(room := Happen(s.room, e))
  }

  function Start(room: Room): Sync {
    Sync(room, [], EMPTY_HUB, map[], map[], map[], false, [])
  }

  ghost function RunFrom(s: Sync, steps: seq<SyncStep>): Sync
    decreases |steps|
  {
    if steps == [] then s else RunFrom(DoSync(s, steps[0]), steps[1..])
  }

  ghost function RunSync(room: Room, steps: seq<SyncStep>): Sync {
    RunFrom(Start(room), steps)
  }

  // ---------- the client ----------

  type Merged = map<(u64, string), DataUpdate>

  /** Keep the update with the highest counter per key; `replaceOnTie` is the client's choice for equal counters. */
  function Merge(m: Merged, u: DataUpdate, replaceOnTie: bool): Merged {
    var p := (u.bucket, u.key);
    if p in m && (u.counter < m[p].counter || (u.counter == m[p].counter && !replaceOnTie)) then m else m[p := u]
  }

  function MergeAll(updates: seq<DataUpdate>, replaceOnTie: bool): Merged {
    if updates == [] then map[]
    else Merge(MergeAll(updates[..|updates| - 1], replaceOnTie), updates[|updates| - 1], replaceOnTie)
  }

  /** What the client shows: null reads as absent. */
  function ClientView(updates: seq<DataUpdate>, replaceOnTie: bool): map<(u64, string), Value> {
    var m := MergeAll(updates, replaceOnTie);
    map p | p in m && m[p].value.Some? && m[p].value != Some(Null) :: m[p].value.value
  }

  /** The live content of the room's buckets in `allowed`. */
  function LiveContent(r: Room, allowed: set<u64>): map<(u64, string), Value> {
    map b, k | b in r.buckets && b in allowed && k in r.buckets[b] && r.buckets[b][k].value != Null
             :: (b, k) := r.buckets[b][k].value
  }
}
