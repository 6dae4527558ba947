/** The store codec: every reader finds exactly what the writers of its kind left, whatever else was written. */
module StoreTheorems {
  import opened Basics
  import opened KeyCodec
  import opened StoreModel

  // ---------- keys and kinds ----------

  lemma PlacedKinds(key: string, doc: Document, room: nat, b: u64, k: string)
    requires WellPlaced(key, doc, room)
    ensures key == FragmentKey(b, k) ==> doc.Fragment?
    ensures key == BucketKey(b) ==> doc.BucketInfo? && doc.info.id == b
    ensures key == BucketListKey(room) ==> doc.IdList?
    ensures key == MemberListKey(room) ==> doc.MemberList?
    ensures ParseBucketKey(key).Some? ==> doc.BucketInfo? && ParseBucketKey(key) == Some(doc.info.id)
    ensures SplitFragmentKey(key).Some? ==> doc.Fragment?
  {
    match doc
    case Fragment(_) =>
      var (b', k') := SplitFragmentKey(key).value;
      KindsDisjoint(b', k', b, room);
    case BucketInfo(info) =>
      KindsDisjoint(b, k, info.id, room);
      BucketKeyRoundTrip(info.id);
      BucketKeyRoundTrip(b);
    case IdList(_) =>
      KindsDisjoint(b, k, b, room);
    case MemberList(_) =>
      KindsDisjoint(b, k, b, room);
  }

  lemma CanonicalIds(s: Store, room: nat)
    requires Canonical(s, room)
    ensures forall b: u64 :: b in BucketIds(s) <==> BucketKey(b) in s
    ensures forall b: u64 :: b in BucketIds(s) <==> InfoAt(s, b).Some?
    ensures forall b: u64 :: InfoAt(s, b).Some? ==> InfoAt(s, b).value.id == b
  {
    forall b: u64
      ensures b in BucketIds(s) <==> BucketKey(b) in s
      ensures BucketKey(b) in s ==> s[BucketKey(b)].BucketInfo? && s[BucketKey(b)].info.id == b
    {
      BucketKeyRoundTrip(b);
      if BucketKey(b) in s {
        PlacedKinds(BucketKey(b), s[BucketKey(b)], room, b, "");
      }
      if b in BucketIds(s) {
        var key :| key in s && ParseBucketKey(key) == Some(b);
        PlacedKinds(key, s[key], room, b, "");
      }
    }
  }

  lemma ScanExact(s: Store, room: nat)
    requires Canonical(s, room)
    ensures forall b: u64 :: b in Scan(s) <==> InfoAt(s, b).Some?
    ensures forall b: u64 :: b in Scan(s) ==> Scan(s)[b] == InfoAt(s, b).value && Scan(s)[b].id == b
    ensures Scan(s).Keys == BucketIds(s)
  {
    CanonicalIds(s, room);
  }

  lemma FragmentsExact(s: Store, b: u64)
    ensures forall k :: k in BucketFragments(s, b) <==> StoredAt(s, b, k).Some?
    ensures forall k :: k in BucketFragments(s, b) ==> BucketFragments(s, b)[k] == StoredAt(s, b, k).value
  {
  }

  // ---------- what each writer changes ----------

  lemma FragmentWritten(s: Store, room: nat, b: u64, k: string, value: Option<Value>)
    requires Canonical(s, room)
    ensures var s' := PutFragment(s, b, k, value);
      && Canonical(s', room)
      && (forall b': u64, k' :: StoredAt(s', b', k') == if b' == b && k' == k then value else StoredAt(s, b', k'))
      && (forall b': u64 :: InfoAt(s', b') == InfoAt(s, b'))
      && BucketIds(s') == BucketIds(s)
      && StoredMembers(s', room) == StoredMembers(s, room)
      && (BucketListKey(room) in s' <==> BucketListKey(room) in s)
      && (BucketListKey(room) in s ==> s'[BucketListKey(room)] == s[BucketListKey(room)])
  {
    var key, s' := FragmentKey(b, k), PutFragment(s, b, k, value);
    SplitRoundTrip(b, k);
    forall b': u64, k' | FragmentKey(b', k') == key
      ensures b' == b && k' == k
    {
      FragmentKeyInjective(b, k, b', k');
    }
    forall b': u64
      ensures BucketKey(b') != key && BucketListKey(room) != key && MemberListKey(room) != key
      ensures ParseBucketKey(key) == None
    {
      KindsDisjoint(b, k, b', room);
    }
    KindsDisjoint(b, k, 0, room);
    CanonicalIds(s, room);
    CanonicalIds(s', room);
  }

  /** Overwriting or deleting under a key that no fragment and no record uses. */
  lemma ListWritten(s: Store, room: nat, key: string, doc: Document)
    requires Canonical(s, room) && WellPlaced(key, doc, room) && (doc.IdList? || doc.MemberList?)
    ensures var s' := s[key := doc];
      && Canonical(s', room)
      && (forall b: u64, k :: StoredAt(s', b, k) == StoredAt(s, b, k))
      && (forall b: u64 :: InfoAt(s', b) == InfoAt(s, b))
      && BucketIds(s') == BucketIds(s)
  {
    var s' := s[key := doc];
    forall b: u64, k
      ensures FragmentKey(b, k) != key && BucketKey(b) != key
    {
      KindsDisjoint(b, k, b, room);
    }
    CanonicalIds(s, room);
    CanonicalIds(s', room);
  }

  function WithInfo(s: Store, b: u64, rec: Option<BucketRecord>): Store {
    if rec.Some? then s[BucketKey(b) := BucketInfo(rec.value)] else s - {BucketKey(b)}
  }

  lemma InfoChanged(s: Store, b: u64, rec: Option<BucketRecord>, b': u64)
    ensures InfoAt(WithInfo(s, b, rec), b') == if b' == b then rec else InfoAt(s, b')
  {
    BucketKeyRoundTrip(b);
    BucketKeyRoundTrip(b');
  }

  lemma InfoHidesNothing(s: Store, room: nat, b: u64, rec: Option<BucketRecord>)
    ensures forall b': u64, k :: StoredAt(WithInfo(s, b, rec), b', k) == StoredAt(s, b', k)
    ensures StoredMembers(WithInfo(s, b, rec), room) == StoredMembers(s, room)
  {
    KindsDisjoint(b, "", b, room);
    forall b': u64, k
      ensures FragmentKey(b', k) != BucketKey(b)
    {
      KindsDisjoint(b', k, b, room);
    }
  }

  lemma RecordChanged(s: Store, room: nat, b: u64, rec: Option<BucketRecord>)
    requires Canonical(s, room) && (rec.Some? ==> rec.value.id == b)
    ensures var s' := WithInfo(s, b, rec);
      && Canonical(s', room)
      && (forall b': u64, k :: StoredAt(s', b', k) == StoredAt(s, b', k))
      && (forall b': u64 :: InfoAt(s', b') == if b' == b then rec else InfoAt(s, b'))
      && StoredMembers(s', room) == StoredMembers(s, room)
  {
    InfoHidesNothing(s, room, b, rec);
    forall b': u64 {
      InfoChanged(s, b, rec, b');
    }
  }

  /** Shared by adding and removing a record: the record changes, the id list follows, nothing else moves. */
  lemma RecordWritten(s: Store, room: nat, b: u64, rec: Option<BucketRecord>)
    requires Canonical(s, room) && (rec.Some? ==> rec.value.id == b)
    ensures var s' := if rec.Some? then PutBucket(s, room, rec.value) else RemoveBucket(s, room, b);
      && Sound(s', room)
      && (forall b': u64, k :: StoredAt(s', b', k) == StoredAt(s, b', k))
      && Scan(s') == (if rec.Some? then Scan(s)[b := rec.value] else Scan(s) - {b})
      && StoredMembers(s', room) == StoredMembers(s, room)
  {
    var mid := WithInfo(s, b, rec);
    var s' := WithIdList(mid, room);
    RecordChanged(s, room, b, rec);
    ListWritten(mid, room, BucketListKey(room), IdList(BucketIds(mid)));
    KindsDisjoint(0, "", 0, room);
    ScanChanged(s, s', room, b, rec);
  }

  lemma ScanGet(s: Store, room: nat, b: u64)
    requires Canonical(s, room)
    ensures Lookup(Scan(s), b) == InfoAt(s, b)
  {
    ScanExact(s, room);
  }

  lemma SameRecords(m: Records, m': Records)
    requires forall b: u64 :: Lookup(m, b) == Lookup(m', b)
    ensures m == m'
  {
    assert forall b: u64 :: (b in m <==> Lookup(m, b).Some?) && (b in m' <==> Lookup(m', b).Some?);
    assert m.Keys == m'.Keys;
    assert forall b | b in m :: m[b] == Lookup(m, b).value == Lookup(m', b).value == m'[b];
  }

  lemma ScanChanged(s: Store, s': Store, room: nat, b: u64, rec: Option<BucketRecord>)
    requires Canonical(s, room) && Canonical(s', room)
    requires forall b': u64 :: InfoAt(s', b') == if b' == b then rec else InfoAt(s, b')
    ensures Scan(s') == if rec.Some? then Scan(s)[b := rec.value] else Scan(s) - {b}
  {
    var expected := if rec.Some? then Scan(s)[b := rec.value] else Scan(s) - {b};
    forall b': u64
      ensures Lookup(Scan(s'), b') == Lookup(expected, b')
    {
      ScanGet(s, room, b');
      ScanGet(s', room, b');
    }
    SameRecords(Scan(s'), expected);
  }

  function WithMembers(s: Store, room: nat, names: set<string>): Store {
    s[MemberListKey(room) := MemberList(names)]
  }

  lemma MembersKeepCanonical(s: Store, room: nat, names: set<string>)
    requires Canonical(s, room)
    ensures var s' := WithMembers(s, room, names);
      && Canonical(s', room)
      && (forall b: u64, k :: StoredAt(s', b, k) == StoredAt(s, b, k))
      && (forall b: u64 :: InfoAt(s', b) == InfoAt(s, b))
      && BucketIds(s') == BucketIds(s)
  {
    ListWritten(s, room, MemberListKey(room), MemberList(names));
  }

  lemma MembersKeepSound(s: Store, room: nat, names: set<string>)
    requires Sound(s, room)
    ensures Sound(WithMembers(s, room, names), room)
  {
    MembersKeepCanonical(s, room, names);
    KindsDisjoint(0, "", 0, room);
  }

  lemma SameScan(s: Store, s': Store)
    requires BucketIds(s') == BucketIds(s) && forall b: u64 :: InfoAt(s', b) == InfoAt(s, b)
    ensures Scan(s') == Scan(s)
  {
  }

  lemma MembersWritten(s: Store, room: nat, names: set<string>)
    requires Sound(s, room)
    ensures var s' := WithMembers(s, room, names);
      && Sound(s', room)
      && (forall b: u64, k :: StoredAt(s', b, k) == StoredAt(s, b, k))
      && Scan(s') == Scan(s)
      && StoredMembers(s', room) == names
  {
    MembersKeepSound(s, room, names);
    MembersKeepCanonical(s, room, names);
    SameScan(s, WithMembers(s, room, names));
  }

  lemma FragmentKeepsSound(s: Store, room: nat, b: u64, k: string, value: Option<Value>)
    requires Sound(s, room)
    ensures Sound(PutFragment(s, b, k, value), room)
    ensures Scan(PutFragment(s, b, k, value)) == Scan(s)
  {
    FragmentWritten(s, room, b, k, value);
    SameScan(s, PutFragment(s, b, k, value));
  }

  /** Cache, id list and full scan give the same answer. */
  lemma LoadBucketsIsTheScan(s: Store, room: nat, cached: Option<Records>)
    requires Sound(s, room) && (cached.Some? ==> cached.value == Scan(s))
    ensures LoadBuckets(s, room, cached) == Scan(s)
  {
  }

  // ---------- whole runs on one store ----------

  datatype StoreOp =
    | PutFragmentOp(b: u64, k: string, value: Option<Value>)
    | PutRecord(rec: BucketRecord)
    | DropRecord(b: u64)
    | WriteMember(member: string)
    | DropMember(member: string)

  function DoStore(s: Store, room: nat, op: StoreOp): Store {
    match op
    case PutFragmentOp(b, k, value) => PutFragment(s, b, k, value)
    case PutRecord(rec) => PutBucket(s, room, rec)
    case DropRecord(b) => RemoveBucket(s, room, b)
    case WriteMember(m) => AddMember(s, room, m)
    case DropMember(m) => RemoveMember(s, room, m)
  }

  function RunStore(room: nat, ops: seq<StoreOp>): Store {
    if ops == [] then map[] else DoStore(RunStore(room, ops[..|ops| - 1]), room, ops[|ops| - 1])
  }

  /** The last surviving value of (b, k), told from the list of operations alone. */
  function LastWritten(ops: seq<StoreOp>, b: u64, k: string): Option<Value> {
    if ops == [] then None
    else
      var last := ops[|ops| - 1];
      if last.PutFragmentOp? && last.b == b && last.k == k then last.value else LastWritten(ops[..|ops| - 1], b, k)
  }

  function LastRecord(ops: seq<StoreOp>, b: u64): Option<BucketRecord> {
    if ops == [] then None
    else
      var last := ops[|ops| - 1];
      if last.PutRecord? && last.rec.id == b then Some(last.rec)
      else if last.DropRecord? && last.b == b then None
      else LastRecord(ops[..|ops| - 1], b)
  }

  predicate LastMember(ops: seq<StoreOp>, m: string) {
    ops != [] &&
    var last := ops[|ops| - 1];
    if last.WriteMember? && Trim(last.member) == m && m != "" then true
    else if last.DropMember? && last.member == m then false
    else LastMember(ops[..|ops| - 1], m)
  }

  /**
   Whatever the interleaving of fragment, bucket and member writes, the three readers return exactly the last
   surviving write of their own kind, for keys that hold colons too.
   */
  lemma {:induction false} ReadersFindLastWrites(room: nat, ops: seq<StoreOp>)
    ensures var s := RunStore(room, ops);
      && Sound(s, room)
      && (forall b: u64, k :: Lookup(BucketFragments(s, b), k) == LastWritten(ops, b, k))
      && (forall b: u64 :: Lookup(Scan(s), b) == LastRecord(ops, b))
      && (forall m :: m in StoredMembers(s, room) <==> LastMember(ops, m))
  {
    RunReads(room, ops);
    var s := RunStore(room, ops);
    forall b: u64 { FragmentsExact(s, b); }
    ScanExact(s, room);
  }

  lemma {:induction false} RunReads(room: nat, ops: seq<StoreOp>)
    ensures var s := RunStore(room, ops);
      && Sound(s, room)
      && (forall b: u64, k :: StoredAt(s, b, k) == LastWritten(ops, b, k))
      && (forall b: u64 :: Lookup(Scan(s), b) == LastRecord(ops, b))
      && (forall m :: m in StoredMembers(s, room) <==> LastMember(ops, m))
  {
    if ops == [] {
      assert BucketIds(RunStore(room, ops)) == {};
    } else {
      var before, last := RunStore(room, ops[..|ops| - 1]), ops[|ops| - 1];
      RunReads(room, ops[..|ops| - 1]);
      match last
      case PutFragmentOp(b, k, value) =>
        FragmentWritten(before, room, b, k, value);
        FragmentKeepsSound(before, room, b, k, value);
      case PutRecord(rec) => RecordWritten(before, room, rec.id, Some(rec));
      case DropRecord(b) => RecordWritten(before, room, b, None);
      case WriteMember(m) => MembersWritten(before, room, StoredMembers(before, room) + {Trim(m)});
      case DropMember(m) => MembersWritten(before, room, StoredMembers(before, room) - {m});
    }
  }
}
