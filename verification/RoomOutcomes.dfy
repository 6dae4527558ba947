/** What each operation on a room answers and leaves, outcome by outcome, and who may see which bucket. */
module RoomOutcomes {
  import opened Basics
  import opened KeyCodec
  import opened RoomModel
  import opened RoomTheorems

  // ---------- sets and deletes ----------

  /** A busy or unloaded room refuses; a refused or buffered command leaves every entry and the counter alone. */
  lemma CommandOutcome(r: Room, c: RoomCommand)
    ensures var (r', status) := Apply(r, c);
      && (status == Failed(RoomIoBusy) <==> r.ioLocked)
      && (status == Failed(RoomNotLoaded) <==> !r.ioLocked && !r.loaded)
      && (status == Failed(BucketNotFound) <==>
            !r.ioLocked && r.loaded && r.txBuffer.None? && c.Del? && c.bucket !in r.buckets)
      && (status.Failed? ==> status.error in {RoomIoBusy, RoomNotLoaded, BucketNotFound} && r' == r)
      && (status == Done && r.txBuffer.Some? ==> r' == r.(txBuffer := Some(r.txBuffer.value + [c])))
  {
  }

  /** A set or delete that takes effect: its key reads as the new value under the new counter, all else as before. */
  lemma CommandTakesEffect(r: Room, c: RoomCommand)
    requires Apply(r, c).1 == Done && r.txBuffer.None?
    ensures var r' := Apply(r, c).0;
      && r'.counter == r.counter + 1
      && GetFragment(r', c.bucket, c.key) ==
         (if c.Set? && c.value != Null then Found(c.value, r.counter + 1) else Missing(FragmentTombstone))
      && (forall b: u64, k :: b != c.bucket || k != c.key ==> EntryAt(r', b, k) == EntryAt(r, b, k))
      && (forall b :: b in r'.buckets <==> b in r.buckets || b == c.bucket)
      && r' == r.(counter := r'.counter, buckets := r'.buckets)
  {
    forall b: u64, k {
      PutEntry(r, c, b, k);
    }
  }

  /** A read finds the entry's value and version, or says which of the five things is in the way. */
  lemma FetchOutcome(r: Room, b: u64, k: string)
    ensures var f, e := GetFragment(r, b, k), EntryAt(r, b, k);
      && (forall v, n: nat :: f == Found(v, n) <==> !r.ioLocked && r.loaded && e == Some(Entry(v, n)) && v != Null)
      && (f == Missing(RoomIoBusy) <==> r.ioLocked)
      && (f == Missing(RoomNotLoaded) <==> !r.ioLocked && !r.loaded)
      && (f == Missing(BucketNotFound) <==> !r.ioLocked && r.loaded && b !in r.buckets)
      && (f == Missing(FragmentNotFound) <==> !r.ioLocked && r.loaded && b in r.buckets && e.None?)
      && (f == Missing(FragmentTombstone) <==> !r.ioLocked && r.loaded && e.Some? && e.value.value == Null)
  {
  }

  lemma VersionOutcome(r: Room)
    ensures VersionOf(r) == NotCounted(RoomIoBusy) <==> r.ioLocked
    ensures forall n: nat :: VersionOf(r) == Counted(n) <==> !r.ioLocked && n == r.counter
  {
  }

  // ---------- transactions ----------

  /** Only one transaction at a time, and a refused begin, end or abort changes nothing, an open buffer included. */
  lemma TransactionOutcome(r: Room)
    ensures var (r', status) := TxBegin(r);
      && (status == Failed(RoomIoBusy) <==> r.ioLocked)
      && (status == Failed(TxAlreadyOpen) <==> !r.ioLocked && r.txBuffer.Some?)
      && (status == Done <==> !r.ioLocked && r.txBuffer.None?)
      && r' == if status == Done then r.(txBuffer := Some([])) else r
    ensures var (r', status) := TxEnd(r);
      && (status == Failed(RoomIoBusy) <==> r.ioLocked)
      && (status == Failed(TxNotOpen) <==> !r.ioLocked && r.txBuffer.None?)
      && (status == Done <==> !r.ioLocked && r.txBuffer.Some?)
      && (if status == Done then r'.txBuffer.None? && r'.counter == r.counter + |r.txBuffer.value| else r' == r)
    ensures var (r', status) := TxAbort(r);
      && (status == Failed(RoomIoBusy) <==> r.ioLocked) && (status == Done <==> !r.ioLocked)
      && r' == if status == Done then r.(txBuffer := None) else r
  {
    if !r.ioLocked && r.txBuffer.Some? {
      CommitKeepsRest(r.(txBuffer := None), r.txBuffer.value);
    }
  }

  /** A commit touches entries and the counter only. */
  lemma {:induction false} CommitKeepsRest(r: Room, ops: seq<RoomCommand>)
    ensures var r' := Commit(r, ops); r' == r.(counter := r.counter + |ops|, buckets := r'.buckets)
  {
    if ops != [] {
      CommitKeepsRest(r, ops[..|ops| - 1]);
    }
  }

  // ---------- load and unload ----------

  /** Loading replaces everything but the counter, the lock and an open transaction. */
  lemma LoadOutcome(r: Room, stored: map<u64, map<string, Value>>, labels: map<u64, string>, flags: map<u64, nat>,
                    members: set<string>)
    ensures var r' := Load(r, stored, labels, flags, members);
      && r'.loaded && r'.counter == r.counter && r'.txBuffer == r.txBuffer && r'.ioLocked == r.ioLocked
      && r'.labels == labels && r'.flags == flags && r'.members == members && r'.buckets.Keys == stored.Keys
      && forall b: u64, k :: EntryAt(r', b, k) ==
                             if At(stored, b, k).Some? then Some(Entry(At(stored, b, k).value, 0)) else None
  {
  }

  /** Unloading drops everything but the counter, the lock and an open transaction. */
  lemma UnloadOutcome(r: Room)
    ensures var r' := Unload(r);
      && !r'.loaded && r'.counter == r.counter && r'.txBuffer == r.txBuffer && r'.ioLocked == r.ioLocked
      && r'.buckets == map[] && r'.labels == map[] && r'.flags == map[] && r'.members == {}
  {
  }

  // ---------- buckets ----------

  /** The bucket exists and is flagged, what it held stays, and a label that is not blank is shown. */
  ghost predicate Declares(r: Room, r': Room, b: u64, trimmed: string) {
    && r'.loaded == r.loaded && r'.counter == r.counter && r'.members == r.members
    && r'.buckets.Keys == r.buckets.Keys + {b}
    && (forall b': u64, k :: EntryAt(r', b', k) == EntryAt(r, b', k))
    && (forall b': u64 :: Lookup(r'.flags, b') == if b' == b && b !in r.flags then Some(0) else Lookup(r.flags, b'))
    && (forall b': u64 :: Lookup(r'.labels, b') ==
                          if b' == b && trimmed != "" then Some(trimmed) else Lookup(r.labels, b'))
  }

  lemma AddBucketOutcome(r: Room, b: u64, trimmed: string)
    ensures Declares(r, AddBucket(r, b, trimmed), b, trimmed)
  {
  }

  lemma DropBucketOutcome(r: Room, b: u64)
    ensures var r' := DropBucket(r, b);
      && r'.loaded == r.loaded && r'.counter == r.counter && r'.members == r.members
      && r'.buckets == r.buckets - {b} && r'.labels == r.labels - {b} && r'.flags == r.flags - {b}
  {
  }

  // ---------- who may see what ----------

  /** A snapshot shows the buckets of the room that are bucket 0 or allowed, never the reserved one, and no others. */
  lemma SnapshotRule(r: Room, allowed: set<u64>)
    ensures var e := Snapshot(r, allowed);
      && e.counter == r.counter
      && (forall b: u64 :: BucketName(b) in e.buckets <==>
            b in r.buckets && b != 0xFFFF_FFFF_FFFF_FFFF && (b == 0 || b in allowed))
      && (forall n :: n in e.buckets ==> exists b: u64 :: n == BucketName(b))
      && (forall b: u64, k :: BucketName(b) in e.buckets ==>
            Lookup(e.buckets[BucketName(b)], k) ==
            if Live(r, b, k) then Some(EntryAt(r, b, k).value.value) else None)
  {
    NamedBuckets(VisibleLive(r, allowed));
  }

  predicate NewerKey(r: Room, since: nat, b: u64, k: string) {
    EntryAt(r, b, k).Some? && EntryAt(r, b, k).value.version > since
  }

  ghost predicate HasNewerKey(r: Room, since: nat, b: u64) {
    exists k :: NewerKey(r, since, b, k)
  }

  lemma NewerRule(r: Room, since: nat, allowed: set<u64>)
    ensures var m := VisibleNewer(r, since, allowed);
      && (forall b: u64 :: b in m <==>
            b != 0xFFFF_FFFF_FFFF_FFFF && (b == 0 || b in allowed) && HasNewerKey(r, since, b))
      && (forall b: u64, k :: b in m ==>
            Lookup(m[b], k) == if NewerKey(r, since, b, k) then Some(EntryAt(r, b, k).value.value) else None)
  {
    var m := VisibleNewer(r, since, allowed);
    forall b: u64
      ensures b in m <==> b != 0xFFFF_FFFF_FFFF_FFFF && (b == 0 || b in allowed) && HasNewerKey(r, since, b)
    {
      HasNewer(r, since, b, "");
    }
    forall b: u64, k | b in m
      ensures Lookup(m[b], k) == if NewerKey(r, since, b, k) then Some(EntryAt(r, b, k).value.value) else None
    {
      HasNewer(r, since, b, k);
    }
  }

  /** A delta shows the same buckets, as far as they hold a newer key, with just the newer keys, tombstones as null. */
  lemma DeltaRule(r: Room, since: nat, allowed: set<u64>)
    requires Bounded(r)
    ensures var e := Delta(r, since, allowed);
      && e.counter == r.counter
      && (forall b: u64 :: BucketName(b) in e.buckets <==>
            b != 0xFFFF_FFFF_FFFF_FFFF && (b == 0 || b in allowed) && HasNewerKey(r, since, b))
      && (forall n :: n in e.buckets ==> exists b: u64 :: n == BucketName(b))
      && (forall b: u64, k :: BucketName(b) in e.buckets ==>
            Lookup(e.buckets[BucketName(b)], k) ==
            if NewerKey(r, since, b, k) then Some(EntryAt(r, b, k).value.value) else None)
  {
    EarlyReturnIsTheFilter(r, since, allowed);
    NewerRule(r, since, allowed);
    var m := VisibleNewer(r, since, allowed);
    NamedBuckets(m);
    assert Delta(r, since, allowed).buckets == Named(m);
  }

  lemma HasNewer(r: Room, since: nat, b: u64, k: string)
    ensures b in r.buckets && NewerFragments(r.buckets[b], since) != map[] <==> HasNewerKey(r, since, b)
    ensures b in r.buckets ==> Lookup(NewerFragments(r.buckets[b], since), k) ==
                               if NewerKey(r, since, b, k) then Some(EntryAt(r, b, k).value.value) else None
  {
    if b in r.buckets && NewerFragments(r.buckets[b], since) != map[] {
      var key :| key in NewerFragments(r.buckets[b], since);
      assert NewerKey(r, since, b, key);
    }
    if key :| NewerKey(r, since, b, key) {
      assert key in NewerFragments(r.buckets[b], since);
    }
  }

  ghost predicate AgreeOn(r: Room, r': Room, allowed: set<u64>) {
    && r.counter == r'.counter
    && forall b: u64 | b != 0xFFFF_FFFF_FFFF_FFFF && (b == 0 || b in allowed) ::
         Lookup(r.buckets, b) == Lookup(r'.buckets, b)
  }

  /** What a reader may not see has no influence on what it gets. */
  lemma OnlyTheAllowed(r: Room, r': Room, since: nat, allowed: set<u64>)
    requires AgreeOn(r, r', allowed)
    ensures Snapshot(r, allowed) == Snapshot(r', allowed)
    ensures Delta(r, since, allowed) == Delta(r', since, allowed)
  {
    forall b: u64 | Visible(b, allowed)
      ensures b in r.buckets <==> b in r'.buckets
      ensures b in r.buckets ==> r.buckets[b] == r'.buckets[b]
    {
      assert Lookup(r.buckets, b) == Lookup(r'.buckets, b);
    }
    assert VisibleLive(r, allowed) == VisibleLive(r', allowed);
    assert VisibleNewer(r, since, allowed) == VisibleNewer(r', since, allowed);
  }
}
