/**
 One room as a value: versioned buckets, tombstones, buffered transactions, snapshots and deltas.
 The classes in AppState are proved against these functions.
 */
module RoomModel {
  import opened Basics
  import opened KeyCodec

  /** Reserved bucket that no client may see. */
  const SERVER_ONLY_BUCKET_ID: u64 := U64_MAX

  datatype StateError =
    | RoomNotFound | BucketNotFound | FragmentNotFound | FragmentTombstone
    | TxNotOpen | TxAlreadyOpen | RoomIoBusy | RoomNotLoaded

  datatype Status = Done | Failed(error: StateError)

  datatype Entry = Entry(value: Value, version: nat)

  type Fragments = map<string, Entry>

  datatype RoomCommand =
    | Set(bucket: u64, key: string, value: Value)
    | Del(bucket: u64, key: string)
  {
    /** What the command stores: a deletion leaves a tombstone. */
    function Stored(): Value {
      if Set? then value else Null
    }
  }

  datatype Room = Room(
    buckets: map<u64, Fragments>,
    counter: nat,
    txBuffer: Option<seq<RoomCommand>>,
    ioLocked: bool,
    loaded: bool,
    labels: map<u64, string>,
    flags: map<u64, nat>,
    members: set<string>)

  function NewRoom(loaded: bool): Room {
    Room(map[], 0, None, false, loaded, map[], map[], {})
  }

  function Bucket(buckets: map<u64, Fragments>, b: u64): Fragments {
    if b in buckets then buckets[b] else map[]
  }

  function EntryAt(r: Room, b: u64, k: string): Option<Entry> {
    if b in r.buckets && k in r.buckets[b] then Some(r.buckets[b][k]) else None
  }

  predicate Live(r: Room, b: u64, k: string) {
    EntryAt(r, b, k).Some? && EntryAt(r, b, k).value.value != Null
  }

  // ---------- operations ----------

  /** Bump the counter and store the command's value under the new version. */
  function Put(r: Room, c: RoomCommand): Room {
    var entry := Entry(c.Stored(), r.counter + 1);
    r.(counter := r.counter + 1, buckets := r.buckets[c.bucket := Bucket(r.buckets, c.bucket)[c.key := entry]])
  }

  function Commit(r: Room, ops: seq<RoomCommand>): Room {
    if ops == [] then r else Put(Commit(r, ops[..|ops| - 1]), ops[|ops| - 1])
  }

  /** `set_fragment` and `del_fragment` on a room that exists. */
  function Apply(r: Room, c: RoomCommand): (Room, Status) {
    if r.ioLocked then (r, Failed(RoomIoBusy))
    else if !r.loaded then (r, Failed(RoomNotLoaded))
    else if r.txBuffer.Some? then (r.(txBuffer := Some(r.txBuffer.value + [c])), Done)
    else if c.Del? && c.bucket !in r.buckets then (r, Failed(BucketNotFound))
    else (Put(r, c), Done)
  }

  function TxBegin(r: Room): (Room, Status) {
    if r.ioLocked then (r, Failed(RoomIoBusy))
    else if r.txBuffer.Some? then (r, Failed(TxAlreadyOpen))
    else (r.(txBuffer := Some([])), Done)
  }

  function TxEnd(r: Room): (Room, Status) {
    if r.ioLocked then (r, Failed(RoomIoBusy))
    else if r.txBuffer.None? then (r, Failed(TxNotOpen))
    else (Commit(r.(txBuffer := None), r.txBuffer.value), Done)
  }

  function TxAbort(r: Room): (Room, Status) {
    if r.ioLocked then (r, Failed(RoomIoBusy)) else (r.(txBuffer := None), Done)
  }

  datatype Fetched = Found(value: Value, version: nat) | Missing(error: StateError)

  function GetFragment(r: Room, b: u64, k: string): Fetched {
    if r.ioLocked then Missing(RoomIoBusy)
    else if !r.loaded then Missing(RoomNotLoaded)
    else if b !in r.buckets then Missing(BucketNotFound)
    else if k !in r.buckets[b] then Missing(FragmentNotFound)
    else if r.buckets[b][k].value == Null then Missing(FragmentTombstone)
    else Found(r.buckets[b][k].value, r.buckets[b][k].version)
  }

  datatype Counted = Counted(counter: nat) | NotCounted(error: StateError)

  /** The room's counter, for every room that is not busy. */
  function VersionOf(r: Room): Counted {
    if r.ioLocked then NotCounted(RoomIoBusy) else Counted(r.counter)
  }

  // ---------- load, unload, bucket records ----------

  /** Entries read back from the store all carry version 0. */
  function FreshEntries(stored: map<string, Value>): Fragments {
    map k | k in stored :: Entry(stored[k], 0)
  }

  function FreshBuckets(stored: map<u64, map<string, Value>>): map<u64, Fragments> {
    map b | b in stored :: FreshEntries(stored[b])
  }

  /** A room filled from its store: `stored` holds the fragments of every bucket that has a record. */
  function Load(r: Room, stored: map<u64, map<string, Value>>, labels: map<u64, string>, flags: map<u64, nat>,
                members: set<string>): Room {
    r.(buckets := FreshBuckets(stored),
       labels := labels, flags := flags, members := members, loaded := true)
  }

  function Unload(r: Room): Room {
    r.(loaded := false, buckets := map[], labels := map[], flags := map[], members := {})
  }

  /** The in-memory half of `NewBucket` on a loaded room; `name` is the trimmed label. */
  function AddBucket(r: Room, b: u64, name: string): Room {
    r.(buckets := r.buckets[b := Bucket(r.buckets, b)],
       flags := r.flags[b := if b in r.flags then r.flags[b] else 0],
       labels := if name != "" then r.labels[b := name] else r.labels)
  }

  function DropBucket(r: Room, b: u64): Room {
    r.(buckets := r.buckets - {b}, labels := r.labels - {b}, flags := r.flags - {b})
  }

  // ---------- snapshots and deltas ----------

  /** The JSON object a snapshot or delta returns. */
  datatype Extract = Extract(counter: nat, buckets: map<string, map<string, Value>>)

  predicate Visible(b: u64, allowed: set<u64>) {
    b != SERVER_ONLY_BUCKET_ID && (b == 0 || b in allowed)
  }

  function LiveFragments(f: Fragments): map<string, Value> {
    map k | k in f && f[k].value != Null :: f[k].value
  }

  function NewerFragments(f: Fragments, since: nat): map<string, Value> {
    map k | k in f && f[k].version > since :: f[k].value
  }

  lemma BucketNamesInjective()
    ensures forall b: u64, b': u64 :: BucketName(b) == BucketName(b') ==> b == b'
  {
    forall b: u64, b': u64 | BucketName(b) == BucketName(b')
      ensures b == b'
    {
      BucketNameInjective(b, b');
    }
  }

  ghost function Named(m: map<u64, map<string, Value>>): map<string, map<string, Value>> {
    BucketNamesInjective();
    map b | b in m :: BucketName(b) := m[b]
  }

  function VisibleLive(r: Room, allowed: set<u64>): map<u64, map<string, Value>> {
    map b | b in r.buckets && Visible(b, allowed) :: LiveFragments(r.buckets[b])
  }

  ghost function Snapshot(r: Room, allowed: set<u64>): Extract {
    Extract(r.counter, Named(VisibleLive(r, allowed)))
  }

  ghost function Delta(r: Room, since: nat, allowed: set<u64>): Extract {
    if since >= r.counter then Extract(r.counter, map[]) else Filtered(r, since, allowed)
  }

  /** What the filtering loop of a delta collects; buckets without newer keys are left out. */
  function VisibleNewer(r: Room, since: nat, allowed: set<u64>): map<u64, map<string, Value>> {
    map b | b in r.buckets && Visible(b, allowed) && NewerFragments(r.buckets[b], since) != map[]
          :: NewerFragments(r.buckets[b], since)
  }

  ghost function Filtered(r: Room, since: nat, allowed: set<u64>): Extract {
    Extract(r.counter, Named(VisibleNewer(r, since, allowed)))
  }

  // ---------- runs ----------

  datatype Step = Op(command: RoomCommand) | Begin | End | Abort

  function Do(r: Room, step: Step): (Room, Status) {
    match step
    case Op(c) => Apply(r, c)
    case Begin => TxBegin(r)
    case End => TxEnd(r)
    case Abort => TxAbort(r)
  }

  function Run(r: Room, steps: seq<Step>): Room {
    if steps == [] then r else Do(Run(r, steps[..|steps| - 1]), steps[|steps| - 1]).0
  }

  function Ops(ops: seq<RoomCommand>): seq<Step> {
    seq(|ops|, i requires 0 <= i < |ops| => Op(ops[i]))
  }
}
