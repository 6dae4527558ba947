/**
 The persistence manager: one store per room and a cache of bucket records, both updated in place. A store opened
 for a room and the room's entry in the cache are addressed by the room id.
 */
module Persistence {
  import opened Basics
  import opened KeyCodec
  import opened StoreModel
  import opened StoreTheorems

  /** Stores hold only what the manager writes, and a cached answer is what a full scan would find. */
  ghost predicate Consistent(dbs: map<nat, Store>, cache: map<nat, Records>) {
    && (forall id :: id in dbs ==> Sound(dbs[id], id))
    && (forall id :: id in cache ==> id in dbs && cache[id] == Scan(dbs[id]))
  }

  function CachedAs(cache: map<nat, Records>, id: nat, records: Records): map<nat, Records> {
    if id in cache then cache[id := records] else cache
  }

  lemma StoreReplaced(dbs: map<nat, Store>, cache: map<nat, Records>, id: nat, s: Store, records: Records)
    requires Consistent(dbs, cache) && id in dbs && Sound(s, id) && (id in cache ==> records == Scan(s))
    ensures Consistent(dbs[id := s], CachedAs(cache, id, records))
  {
  }

  lemma RecordPut(dbs: map<nat, Store>, cache: map<nat, Records>, id: nat, rec: BucketRecord)
    requires Consistent(dbs, cache) && id in dbs
    ensures Consistent(dbs[id := PutBucket(dbs[id], id, rec)],
                       if id in cache then cache[id := WithRecord(cache[id], rec)] else cache)
  {
    RecordWritten(dbs[id], id, rec.id, Some(rec));
    StoreReplaced(dbs, cache, id, PutBucket(dbs[id], id, rec), WithRecord(Scan(dbs[id]), rec));
  }

  lemma RecordRemoved(dbs: map<nat, Store>, cache: map<nat, Records>, id: nat, b: u64)
    requires Consistent(dbs, cache) && id in dbs
    ensures Consistent(dbs[id := RemoveBucket(dbs[id], id, b)],
                       if id in cache then cache[id := cache[id] - {b}] else cache)
  {
    RecordWritten(dbs[id], id, b, None);
    StoreReplaced(dbs, cache, id, RemoveBucket(dbs[id], id, b), Scan(dbs[id]) - {b});
  }

  class PersistenceManager {
    var dbs: map<nat, Store>
    var bucketCache: map<nat, Records>

    ghost predicate Valid()
      reads this
    {
      Consistent(dbs, bucketCache)
    }

    /** Startup: the stores found on disk are opened and nothing is cached. */
    constructor (existing: map<nat, Store>)
      requires forall id :: id in existing ==> Sound(existing[id], id)
      ensures Valid() && dbs == existing && bucketCache == map[]
    {
      dbs, bucketCache := existing, map[];
    }

    method OpenRoomDb(id: nat)
      requires Valid()
      modifies this`dbs
      ensures Valid() && dbs == if id in old(dbs) then old(dbs) else old(dbs)[id := map[]]
    {
      if id in dbs { return; }
      assert BucketIds(map[]) == {};
      dbs := dbs[id := map[]];
    }

    method ListRoomIds() returns (ids: seq<nat>)
      ensures forall id :: id in ids <==> id in dbs
    {
      ids := [];
      var todo := dbs.Keys;
      while todo != {}
        invariant todo <= dbs.Keys
        invariant forall id :: id in ids <==> id in dbs && id !in todo
      {
        var id :| id in todo;
        todo := todo - {id};
        ids := ids + [id];
      }
    }

    /** The cache may drop any entries when other rooms are used. */
    method EvictBuckets(ids: set<nat>)
      requires Valid()
      modifies this`bucketCache
      ensures Valid() && bucketCache == old(bucketCache) - ids
    {
      bucketCache := bucketCache - ids;
    }

    method PersistFragment(id: nat, b: u64, key: string, value: Option<Value>)
      requires Valid() && id in dbs
      modifies this`dbs
      ensures Valid() && dbs == old(dbs)[id := PutFragment(old(dbs[id]), b, key, value)]
    {
      FragmentKeepsSound(dbs[id], id, b, key, value);
      var keyStr := FragmentKey(b, key);
      if value.Some? {
        dbs := dbs[id := dbs[id][keyStr := Fragment(value.value)]];
      } else {
        dbs := dbs[id := dbs[id] - {keyStr}];
      }
    }

    // ---------- members ----------

    method LoadMembers(id: nat) returns (members: set<string>)
      requires Valid() && id in dbs
      ensures members == StoredMembers(dbs[id], id)
    {
      var key := MemberListKey(id);
      if key in dbs[id] && dbs[id][key].MemberList? { return dbs[id][key].names; }
      return {};
    }

    method PersistMember(id: nat, member: string)
      requires Valid() && id in dbs
      modifies this`dbs
      ensures Valid() && dbs == old(dbs)[id := AddMember(old(dbs[id]), id, member)]
    {
      var name := Trim(member);
      if name == "" {
        assert dbs == dbs[id := dbs[id]];
        return;
      }
      var members := LoadMembers(id);
      MembersWritten(dbs[id], id, members + {name});
      dbs := dbs[id := dbs[id][MemberListKey(id) := MemberList(members + {name})]];
    }

    method UnpersistMember(id: nat, member: string)
      requires Valid() && id in dbs
      modifies this`dbs
      ensures Valid() && dbs == old(dbs)[id := RemoveMember(old(dbs[id]), id, member)]
    {
      var members := LoadMembers(id);
      MembersWritten(dbs[id], id, members - {member});
      dbs := dbs[id := dbs[id][MemberListKey(id) := MemberList(members - {member})]];
    }

    // ---------- bucket records ----------

    method CollectBucketIds(id: nat) returns (ids: set<u64>)
      requires id in dbs
      ensures ids == BucketIds(dbs[id])
    {
      ids := {};
      var todo := dbs[id].Keys;
      while todo != {}
        invariant todo <= dbs[id].Keys
        invariant ids == set key | key in dbs[id] && key !in todo && ParseBucketKey(key).Some?
                                 :: ParseBucketKey(key).value
      {
        var key :| key in todo;
        todo := todo - {key};
        if ParseBucketKey(key).Some? {
          ids := ids + {ParseBucketKey(key).value};
        }
      }
    }

    method UpdateBucketList(id: nat)
      requires id in dbs
      modifies this`dbs
      ensures dbs == old(dbs)[id := WithIdList(old(dbs[id]), id)]
    {
      var ids := CollectBucketIds(id);
      dbs := dbs[id := dbs[id][BucketListKey(id) := IdList(ids)]];
    }

    method PersistBucket(id: nat, b: u64, title: Option<string>, flags: nat)
      requires Valid() && id in dbs
      modifies this
      ensures Valid() && dbs == old(dbs)[id := PutBucket(old(dbs[id]), id, BucketRecord(b, title, flags))]
      ensures var rec := BucketRecord(b, title, flags);
        bucketCache == if id in old(bucketCache) then old(bucketCache)[id := WithRecord(old(bucketCache[id]), rec)]
                       else old(bucketCache)
    {
      var rec := BucketRecord(b, title, flags);
      ghost var target := dbs[id := PutBucket(dbs[id], id, rec)];
      RecordPut(dbs, bucketCache, id, rec);
      dbs := dbs[id := dbs[id][BucketKey(b) := BucketInfo(rec)]];
      UpdateBucketList(id);
      assert dbs == target;
      if id in bucketCache {
        bucketCache := bucketCache[id := WithRecord(bucketCache[id], rec)];
      }
    }

    method UnpersistBucket(id: nat, b: u64)
      requires Valid() && id in dbs
      modifies this
      ensures Valid() && dbs == old(dbs)[id := RemoveBucket(old(dbs[id]), id, b)]
      ensures bucketCache == if id in old(bucketCache) then old(bucketCache)[id := old(bucketCache[id]) - {b}]
                             else old(bucketCache)
    {
      ghost var target := dbs[id := RemoveBucket(dbs[id], id, b)];
      RecordRemoved(dbs, bucketCache, id, b);
      dbs := dbs[id := dbs[id] - {BucketKey(b)}];
      UpdateBucketList(id);
      assert dbs == target;
      if id in bucketCache {
        bucketCache := bucketCache[id := bucketCache[id] - {b}];
      }
    }

    /** Cache, id list and full scan: whichever answers, the answer is the scan. */
    method FetchBuckets(id: nat) returns (out: Records)
      requires Valid() && id in dbs
      modifies this`bucketCache
      ensures Valid() && bucketCache == old(bucketCache)[id := out]
      ensures out == LoadBuckets(dbs[id], id, old(Lookup(bucketCache, id))) && out == Scan(dbs[id])
    {
      ghost var s := dbs[id];
      LoadBucketsIsTheScan(s, id, Lookup(bucketCache, id));
      if id in bucketCache {
        out := bucketCache[id];
        assert bucketCache == bucketCache[id := out];
        return;
      }
      var key := BucketListKey(id);
      if key in dbs[id] && dbs[id][key].IdList? {
        out := RecordsOf(id, dbs[id][key].ids);
        bucketCache := bucketCache[id := out];
        return;
      }
      out := ScanBuckets(id);
      bucketCache := bucketCache[id := out];
    }

    method RecordsOf(id: nat, ids: set<u64>) returns (out: Records)
      requires id in dbs
      ensures out == FromIds(dbs[id], ids)
    {
      out := map[];
      var todo := ids;
      while todo != {}
        invariant todo <= ids
        invariant out == map b | b in ids && b !in todo && InfoAt(dbs[id], b).Some? :: InfoAt(dbs[id], b).value
      {
        var b :| b in todo;
        todo := todo - {b};
        var bucketKey := BucketKey(b);
        if bucketKey in dbs[id] && dbs[id][bucketKey].BucketInfo? {
          out := out[b := dbs[id][bucketKey].info];
        }
      }
    }

    method ScanBuckets(id: nat) returns (out: Records)
      requires Valid() && id in dbs
      ensures out == Scan(dbs[id])
    {
      ghost var s := dbs[id];
      out := map[];
      var todo := dbs[id].Keys;
      while todo != {}
        invariant todo <= s.Keys
        invariant forall b: u64 :: b in out <==> InfoAt(s, b).Some? && BucketKey(b) !in todo
        invariant forall b: u64 :: b in out ==> InfoAt(s, b) == Some(out[b])
      {
        var key :| key in todo;
        todo := todo - {key};
        ScannedKey(s, id, key);
        if ParseBucketKey(key).Some? {
          var b := ParseBucketKey(key).value;
          if dbs[id][key].BucketInfo? {
            out := out[b := dbs[id][key].info];
          }
        }
      }
      ScanFound(s, id, out);
    }

    // ---------- fragments ----------

    method LoadAllFragments(id: nat) returns (out: map<u64, map<string, Value>>)
      requires Valid() && id in dbs
      ensures forall b: u64 :: (if b in out then out[b] else map[]) == BucketFragments(dbs[id], b)
      ensures forall b :: b in out ==> out[b] != map[]
    {
      ghost var s := dbs[id];
      out := map[];
      var todo := dbs[id].Keys;
      while todo != {}
        invariant todo <= s.Keys
        invariant forall b: u64, k :: At(out, b, k) == if FragmentKey(b, k) in todo then None else StoredAt(s, b, k)
        invariant forall b :: b in out ==> out[b] != map[]
      {
        var key :| key in todo;
        todo := todo - {key};
        SplitKey(s, id, key);
        if SplitFragmentKey(key).Some? && dbs[id][key].Fragment? {
          var (b, fragKey) := SplitFragmentKey(key).value;
          var entries := if b in out then out[b] else map[];
          ValueAdded(out, b, fragKey, dbs[id][key].value);
          out := out[b := entries[fragKey := dbs[id][key].value]];
        }
      }
      ValuesAreBucketFragments(s, out);
    }
  }

  lemma ValueAdded(m: map<u64, map<string, Value>>, b: u64, k: string, v: Value)
    ensures var entries := if b in m then m[b] else map[];
      forall b': u64, k' :: At(m[b := entries[k := v]], b', k') ==
                            if b' == b && k' == k then Some(v) else At(m, b', k')
  {
    var m' := m[b := (if b in m then m[b] else map[])[k := v]];
    forall b': u64, k'
      ensures At(m', b', k') == if b' == b && k' == k then Some(v) else At(m, b', k')
    {
      if b' != b { assert b' in m' <==> b' in m; }
    }
  }

  lemma ValuesAreBucketFragments(s: Store, out: map<u64, map<string, Value>>)
    requires forall b: u64, k :: At(out, b, k) == StoredAt(s, b, k)
    ensures forall b: u64 :: (if b in out then out[b] else map[]) == BucketFragments(s, b)
  {
    forall b: u64
      ensures (if b in out then out[b] else map[]) == BucketFragments(s, b)
    {
      FragmentsExact(s, b);
      var entries := if b in out then out[b] else map[];
      assert forall k :: Lookup(entries, k) == At(out, b, k);
      assert forall k :: k in entries <==> Lookup(entries, k).Some?;
    }
  }

  /** In a canonical store a key that parses as a fragment key is the only key of that fragment. */
  lemma SplitKey(s: Store, id: nat, key: string)
    requires Canonical(s, id) && key in s
    ensures SplitFragmentKey(key).Some? ==> s[key].Fragment?
    ensures forall b: u64, k :: FragmentKey(b, k) == key <==> SplitFragmentKey(key) == Some((b, k))
  {
    PlacedKinds(key, s[key], id, 0, "");
    forall b: u64, k
      ensures FragmentKey(b, k) == key <==> SplitFragmentKey(key) == Some((b, k))
    {
      SplitRoundTrip(b, k);
      if SplitFragmentKey(key).Some? {
        assert WellPlaced(key, s[key], id);
      }
    }
  }

  lemma ScannedKey(s: Store, id: nat, key: string)
    requires Canonical(s, id) && key in s
    ensures ParseBucketKey(key).Some? ==> s[key].BucketInfo?
    ensures forall b: u64 :: BucketKey(b) == key <==> ParseBucketKey(key) == Some(b)
  {
    forall b: u64
      ensures BucketKey(b) == key <==> ParseBucketKey(key) == Some(b)
    {
      BucketKeyRoundTrip(b);
      PlacedKinds(key, s[key], id, b, "");
    }
    PlacedKinds(key, s[key], id, 0, "");
  }

  lemma ScanFound(s: Store, id: nat, out: Records)
    requires Canonical(s, id)
    requires forall b: u64 :: Lookup(out, b) == InfoAt(s, b)
    ensures out == Scan(s)
  {
    forall b: u64
      ensures Lookup(out, b) == Lookup(Scan(s), b)
    {
      ScanGet(s, id, b);
    }
    SameRecords(out, Scan(s));
  }
}
