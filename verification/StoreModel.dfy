/**
 One room's key/value store as a value. Fragments, bucket records, the bucket id list and the member list all
 live in one string-keyed namespace; the bytes under a key are represented by the document they encode.
 */
module StoreModel {
  import opened Basics
  import opened KeyCodec

  datatype BucketRecord = BucketRecord(id: u64, title: Option<string>, flags: nat)

  type Records = map<u64, BucketRecord>

  datatype Document =
    | Fragment(value: Value)
    | BucketInfo(info: BucketRecord)
    | IdList(ids: set<u64>)
    | MemberList(names: set<string>)

  function WithRecord(records: Records, rec: BucketRecord): Records {
    records[rec.id := rec]
  }

  type Store = map<string, Document>

  // ---------- writers ----------

  /** Store a fragment, or delete it when there is no value. */
  function PutFragment(s: Store, b: u64, k: string, value: Option<Value>): Store {
    match value
    case Some(v) => s[FragmentKey(b, k) := Fragment(v)]
    case None => s - {FragmentKey(b, k)}
  }

  /** The ids a scan for bucket records collects. */
  function BucketIds(s: Store): set<u64> {
    set key | key in s && ParseBucketKey(key).Some? :: ParseBucketKey(key).value
  }

  function WithIdList(s: Store, room: nat): Store {
    s[BucketListKey(room) := IdList(BucketIds(s))]
  }

  function PutBucket(s: Store, room: nat, rec: BucketRecord): Store {
    WithIdList(s[BucketKey(rec.id) := BucketInfo(rec)], room)
  }

  function RemoveBucket(s: Store, room: nat, b: u64): Store {
    WithIdList(s - {BucketKey(b)}, room)
  }

  function StoredMembers(s: Store, room: nat): set<string> {
    var key := MemberListKey(room);
    if key in s && s[key].MemberList? then s[key].names else {}
  }

  function AddMember(s: Store, room: nat, member: string): Store {
    var name := Trim(member);
    if name == "" then s else s[MemberListKey(room) := MemberList(StoredMembers(s, room) + {name})]
  }

  function RemoveMember(s: Store, room: nat, member: string): Store {
    s[MemberListKey(room) := MemberList(StoredMembers(s, room) - {member})]
  }

  // ---------- readers ----------

  function StoredAt(s: Store, b: u64, k: string): Option<Value> {
    var key := FragmentKey(b, k);
    if key in s && s[key].Fragment? then Some(s[key].value) else None
  }

  function InfoAt(s: Store, b: u64): Option<BucketRecord> {
    var key := BucketKey(b);
    if key in s && s[key].BucketInfo? then Some(s[key].info) else None
  }

  function FromIds(s: Store, ids: set<u64>): Records {
    map b | b in ids && InfoAt(s, b).Some? :: InfoAt(s, b).value
  }

  /** The records a full scan finds. */
  function Scan(s: Store): Records {
    FromIds(s, BucketIds(s))
  }

  /** How `load_buckets` answers: from the cache, else from the id list, else from a full scan. */
  function LoadBuckets(s: Store, room: nat, cached: Option<Records>): Records {
    if cached.Some? then cached.value
    else if BucketListKey(room) in s && s[BucketListKey(room)].IdList? then FromIds(s, s[BucketListKey(room)].ids)
    else Scan(s)
  }

  /** The keys stored for one bucket, read off the writer's key format and not by the scan's parser. */
  function KeysOf(s: Store, b: u64): set<string> {
    var prefix := FragmentKey(b, "");
    set key | key in s && prefix <= key && s[key].Fragment? :: key[|prefix|..]
  }

  function BucketFragments(s: Store, b: u64): map<string, Value> {
    map k | k in KeysOf(s, b) && StoredAt(s, b, k).Some? :: StoredAt(s, b, k).value
  }

  // ---------- what a store written only by these operations looks like ----------

  predicate WellPlaced(key: string, doc: Document, room: nat) {
    match doc
    case Fragment(_) =>
      SplitFragmentKey(key).Some? && key == FragmentKey(SplitFragmentKey(key).value.0, SplitFragmentKey(key).value.1)
    case BucketInfo(info) => key == BucketKey(info.id)
    case IdList(_) => key == BucketListKey(room)
    case MemberList(_) => key == MemberListKey(room)
  }

  ghost predicate Canonical(s: Store, room: nat) {
    forall key | key in s :: WellPlaced(key, s[key], room)
  }

  /** Every document sits under a key of its own kind, and the id list names exactly the bucket records. */
  ghost predicate Sound(s: Store, room: nat) {
    && Canonical(s, room)
    && if BucketListKey(room) in s then s[BucketListKey(room)] == IdList(BucketIds(s)) else BucketIds(s) == {}
  }
}
