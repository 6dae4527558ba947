/** What the versioned room promises over whole runs: catch-up, composition, transactions, version order. */
module RoomTheorems {
  import opened Basics
  import opened KeyCodec
  import opened RoomModel

  // ---------- versions ----------

  ghost predicate Bounded(r: Room) {
    forall b: u64, k :: EntryAt(r, b, k).Some? ==> EntryAt(r, b, k).value.version <= r.counter
  }

  /** No two entries share a nonzero version, even across buckets; entries loaded from the store have version 0. */
  ghost predicate DistinctVersions(r: Room) {
    forall b: u64, k, b': u64, k' ::
      EntryAt(r, b, k).Some? && EntryAt(r, b', k').Some? && (b != b' || k != k')
      && EntryAt(r, b, k).value.version > 0
      ==> EntryAt(r, b, k).value.version != EntryAt(r, b', k').value.version
  }

  ghost predicate Versioned(r: Room) {
    Bounded(r) && DistinctVersions(r)
  }

  /** Everything that can happen to one room between its creation (or registration as a stub) and its deletion. */
  datatype Event =
    | Stepped(step: Step)
    | Loaded(stored: map<u64, map<string, Value>>, labels: map<u64, string>, flags: map<u64, nat>, members: set<string>)
    | Unloaded
    | BucketAdded(bucket: u64, name: string)
    | BucketDropped(bucket: u64)

  function Happen(r: Room, e: Event): Room {
    match e
    case Stepped(s) => Do(r, s).0
    case Loaded(stored, labels, flags, members) => Load(r, stored, labels, flags, members)
    case Unloaded => Unload(r)
    case BucketAdded(b, name) => AddBucket(r, b, name)
    case BucketDropped(b) => DropBucket(r, b)
  }

  function History(r: Room, events: seq<Event>): Room {
    if events == [] then r else Happen(History(r, events[..|events| - 1]), events[|events| - 1])
  }

  /** How many sets and deletes an event applies: one for a direct success, the whole buffer for a commit. */
  function AppliedBy(r: Room, e: Event): nat {
    if e.Stepped? && Do(r, e.step).1 == Done then
      match e.step
      case Op(_) => if r.txBuffer.None? then 1 else 0
      case End => |r.txBuffer.value|
      case _ => 0
    else 0
  }

  function AppliedIn(r: Room, events: seq<Event>): nat {
    if events == [] then 0
    else AppliedIn(r, events[..|events| - 1]) + AppliedBy(History(r, events[..|events| - 1]), events[|events| - 1])
  }

  lemma PutEntry(r: Room, c: RoomCommand, b: u64, k: string)
    ensures EntryAt(Put(r, c), b, k) ==
            if b == c.bucket && k == c.key then Some(Entry(c.Stored(), r.counter + 1)) else EntryAt(r, b, k)
  {
  }

  lemma PutVersioned(r: Room, c: RoomCommand)
    requires Versioned(r)
    ensures Versioned(Put(r, c))
  {
    forall b: u64, k
      ensures EntryAt(Put(r, c), b, k) ==
              if b == c.bucket && k == c.key then Some(Entry(c.Stored(), r.counter + 1)) else EntryAt(r, b, k)
    {
      PutEntry(r, c, b, k);
    }
  }

  lemma {:induction false} CommitVersioned(r: Room, ops: seq<RoomCommand>)
    requires Versioned(r)
    ensures Versioned(Commit(r, ops)) && Commit(r, ops).counter == r.counter + |ops|
  {
    if ops != [] {
      CommitVersioned(r, ops[..|ops| - 1]);
      PutVersioned(Commit(r, ops[..|ops| - 1]), ops[|ops| - 1]);
    }
  }

  ghost predicate EntryPreserving(r: Room, r': Room) {
    r'.counter == r.counter && forall b: u64, k :: EntryAt(r', b, k) == EntryAt(r, b, k)
  }

  lemma FewerEntriesVersioned(r: Room, r': Room)
    requires Versioned(r) && r'.counter == r.counter
    requires forall b: u64, k :: EntryAt(r', b, k) == EntryAt(r, b, k)
                              || EntryAt(r', b, k).None? || EntryAt(r', b, k).value.version == 0
    ensures Versioned(r')
  {
  }

  lemma StepVersioned(r: Room, step: Step)
    requires Versioned(r)
    ensures Versioned(Do(r, step).0) && Do(r, step).0.counter == r.counter + AppliedBy(r, Stepped(step))
  {
    var r' := Do(r, step).0;
    if step.Op? && r'.counter == r.counter + 1 {
      PutVersioned(r, step.command);
    } else if step.End? && !r.ioLocked && r.txBuffer.Some? {
      FewerEntriesVersioned(r, r.(txBuffer := None));
      CommitVersioned(r.(txBuffer := None), r.txBuffer.value);
    } else {
      assert EntryPreserving(r, r');
      FewerEntriesVersioned(r, r');
    }
  }

  lemma HappenVersioned(r: Room, e: Event)
    requires Versioned(r)
    ensures Versioned(Happen(r, e)) && Happen(r, e).counter == r.counter + AppliedBy(r, e)
  {
    if e.Stepped? {
      StepVersioned(r, e.step);
    } else {
      FewerEntriesVersioned(r, Happen(r, e));
    }
  }

  /**
   In every reachable room the versions stay below the counter and apart from one another, and the counter has
   grown by exactly the number of sets and deletes applied: it never decreases, not even over load and unload.
   */
  lemma {:induction false} VersionOrder(r: Room, events: seq<Event>)
    requires Versioned(r)
    ensures Versioned(History(r, events))
    ensures History(r, events).counter == r.counter + AppliedIn(r, events)
  {
    if events != [] {
      VersionOrder(r, events[..|events| - 1]);
      HappenVersioned(History(r, events[..|events| - 1]), events[|events| - 1]);
    }
  }

  lemma NewRoomVersioned(loaded: bool)
    ensures Versioned(NewRoom(loaded))
  {
  }

  // ---------- catch-up ----------

  /** `later` may differ from `r` only in entries that carry a version newer than `r`'s counter. */
  ghost predicate Grows(r: Room, later: Room) {
    && r.counter <= later.counter
    && forall b: u64, k :: EntryAt(later, b, k) == EntryAt(r, b, k)
                        || (EntryAt(later, b, k).Some? && EntryAt(later, b, k).value.version > r.counter)
  }

  lemma PutGrows(r: Room, mid: Room, c: RoomCommand)
    requires Grows(r, mid)
    ensures Grows(r, Put(mid, c))
  {
  }

  lemma {:induction false} CommitGrows(r: Room, mid: Room, ops: seq<RoomCommand>)
    requires Grows(r, mid)
    ensures Grows(r, Commit(mid, ops))
  {
    if ops != [] {
      CommitGrows(r, mid, ops[..|ops| - 1]);
      PutGrows(r, Commit(mid, ops[..|ops| - 1]), ops[|ops| - 1]);
    }
  }

  lemma StepGrows(r: Room, mid: Room, step: Step)
    requires Grows(r, mid)
    ensures Grows(r, Do(mid, step).0)
  {
    var mid' := Do(mid, step).0;
    if step.Op? && mid'.counter == mid.counter + 1 {
      PutGrows(r, mid, step.command);
    } else if step.End? && !mid.ioLocked && mid.txBuffer.Some? {
      assert EntryPreserving(mid, mid.(txBuffer := None));
      CommitGrows(r, mid.(txBuffer := None), mid.txBuffer.value);
    } else {
      assert EntryPreserving(mid, mid');
    }
  }

  lemma {:induction false} RunGrows(r: Room, steps: seq<Step>)
    requires Versioned(r)
    ensures Versioned(Run(r, steps)) && Grows(r, Run(r, steps))
  {
    if steps != [] {
      var mid, last := Run(r, steps[..|steps| - 1]), steps[|steps| - 1];
      RunGrows(r, steps[..|steps| - 1]);
      StepVersioned(mid, last);
      StepGrows(r, mid, last);
    }
  }

  /** The (bucket name, key) -> value content of a snapshot or delta; empty buckets leave no trace in it. */
  type Content = map<(string, string), Value>

  function Flatten(e: Extract): Content {
    map n, k | n in e.buckets && k in e.buckets[n] :: (n, k) := e.buckets[n][k]
  }

  /** What a reader who holds `base` has after merging a delta, where null means remove. */
  function Overlay(base: Content, delta: Content): Content {
    map p | p in base.Keys + delta.Keys && (p in delta ==> delta[p] != Null) :: if p in delta then delta[p] else base[p]
  }

  function SnapshotAt(r: Room, allowed: set<u64>, b: u64, k: string): Option<Value> {
    var e := EntryAt(r, b, k);
    if Visible(b, allowed) && e.Some? && e.value.value != Null then Some(e.value.value) else None
  }

  function DeltaAt(r: Room, since: nat, allowed: set<u64>, b: u64, k: string): Option<Value> {
    var e := EntryAt(r, b, k);
    if Visible(b, allowed) && e.Some? && e.value.version > since then Some(e.value.value) else None
  }

  lemma NamedBuckets(m: map<u64, map<string, Value>>)
    ensures forall b: u64 :: (BucketName(b) in Named(m) <==> b in m) && (b in m ==> Named(m)[BucketName(b)] == m[b])
    ensures forall n :: n in Named(m) ==> exists b: u64 :: n == BucketName(b)
  {
    BucketNamesInjective();
  }

  lemma FlattenNamed(counter: nat, m: map<u64, map<string, Value>>)
    ensures forall b: u64, k :: Lookup(Flatten(Extract(counter, Named(m))), (BucketName(b), k)) == At(m, b, k)
    ensures forall p :: p in Flatten(Extract(counter, Named(m))) ==> exists b: u64 :: p.0 == BucketName(b)
  {
    NamedBuckets(m);
  }

  lemma LiveAt(r: Room, allowed: set<u64>, b: u64, k: string)
    ensures At(VisibleLive(r, allowed), b, k) == SnapshotAt(r, allowed, b, k)
  {
  }

  lemma SnapshotContent(r: Room, allowed: set<u64>)
    ensures forall b: u64, k ::
              Lookup(Flatten(Snapshot(r, allowed)), (BucketName(b), k)) == SnapshotAt(r, allowed, b, k)
    ensures forall p :: p in Flatten(Snapshot(r, allowed)) ==> exists b: u64 :: p.0 == BucketName(b)
  {
    FlattenNamed(r.counter, VisibleLive(r, allowed));
    forall b: u64, k {
      LiveAt(r, allowed, b, k);
    }
  }

  lemma NewerAt(r: Room, since: nat, allowed: set<u64>, b: u64, k: string)
    ensures At(VisibleNewer(r, since, allowed), b, k) == DeltaAt(r, since, allowed, b, k)
  {
    if DeltaAt(r, since, allowed, b, k).Some? {
      assert k in NewerFragments(r.buckets[b], since);
    }
  }

  lemma FilteredContent(r: Room, since: nat, allowed: set<u64>)
    ensures forall b: u64, k ::
              Lookup(Flatten(Filtered(r, since, allowed)), (BucketName(b), k)) == DeltaAt(r, since, allowed, b, k)
    ensures forall p :: p in Flatten(Filtered(r, since, allowed)) ==> exists b: u64 :: p.0 == BucketName(b)
  {
    FlattenNamed(r.counter, VisibleNewer(r, since, allowed));
    forall b: u64, k {
      NewerAt(r, since, allowed, b, k);
    }
  }

  /** The early return gives what the loop would: nothing in the room is newer than its counter. */
  lemma EarlyReturnIsTheFilter(r: Room, since: nat, allowed: set<u64>)
    requires Bounded(r)
    ensures Delta(r, since, allowed) == Filtered(r, since, allowed)
  {
    if since >= r.counter {
      forall b | b in r.buckets
        ensures NewerFragments(r.buckets[b], since) == map[]
      {
        assert forall k | k in r.buckets[b] :: EntryAt(r, b, k) == Some(r.buckets[b][k]);
      }
      assert VisibleNewer(r, since, allowed) == map[];
    }
  }

  lemma DeltaContent(r: Room, since: nat, allowed: set<u64>)
    requires Bounded(r)
    ensures forall b: u64, k ::
              Lookup(Flatten(Delta(r, since, allowed)), (BucketName(b), k)) == DeltaAt(r, since, allowed, b, k)
    ensures forall p :: p in Flatten(Delta(r, since, allowed)) ==> exists b: u64 :: p.0 == BucketName(b)
  {
    EarlyReturnIsTheFilter(r, since, allowed);
    FilteredContent(r, since, allowed);
  }

  /** Contents whose names are all bucket names are equal when they agree at every bucket and key. */
  lemma SameContent(c: Content, d: Content)
    requires forall b: u64, k :: Lookup(c, (BucketName(b), k)) == Lookup(d, (BucketName(b), k))
    requires forall p :: p in c || p in d ==> exists b: u64 :: p.0 == BucketName(b)
    ensures c == d
  {
  }

  lemma OverlayAt(base: Content, delta: Content, p: (string, string))
    ensures Lookup(Overlay(base, delta), p) ==
            match Lookup(delta, p)
            case None => Lookup(base, p)
            case Some(v) => if v == Null then None else Some(v)
  {
  }

  /**
   Catch-up: an old snapshot, overlaid with what changed since any version up to the snapshot's, is the new
   snapshot. The run between the two may hold any sets, deletes and transactions, opened or closed anywhere.
   */
  lemma CatchUp(r: Room, steps: seq<Step>, since: nat, allowed: set<u64>)
    requires Versioned(r) && since <= r.counter
    ensures Overlay(Flatten(Snapshot(r, allowed)), Flatten(Delta(Run(r, steps), since, allowed)))
         == Flatten(Snapshot(Run(r, steps), allowed))
  {
    RunGrows(r, steps);
    OverlayOfGrowth(r, Run(r, steps), since, allowed);
  }

  lemma OverlayOfGrowth(r: Room, later: Room, since: nat, allowed: set<u64>)
    requires Bounded(r) && Bounded(later) && Grows(r, later) && since <= r.counter
    ensures Overlay(Flatten(Snapshot(r, allowed)), Flatten(Delta(later, since, allowed)))
         == Flatten(Snapshot(later, allowed))
  {
    var before, after := Flatten(Snapshot(r, allowed)), Flatten(Snapshot(later, allowed));
    var delta := Flatten(Delta(later, since, allowed));
    SnapshotContent(r, allowed);
    SnapshotContent(later, allowed);
    DeltaContent(later, since, allowed);
    forall b: u64, k
      ensures Lookup(Overlay(before, delta), (BucketName(b), k)) == Lookup(after, (BucketName(b), k))
    {
      OverlayAt(before, delta, (BucketName(b), k));
      OverlayPoint(r, later, since, allowed, b, k);
    }
    SameContent(Overlay(before, delta), after);
  }

  lemma OverlayPoint(r: Room, later: Room, since: nat, allowed: set<u64>, b: u64, k: string)
    requires Grows(r, later) && since <= r.counter
    ensures SnapshotAt(later, allowed, b, k) ==
            match DeltaAt(later, since, allowed, b, k)
            case None => SnapshotAt(r, allowed, b, k)
            case Some(v) => if v == Null then None else Some(v)
  {
  }

  /** Deltas compose: two consecutive deltas, the later one on top, are the delta over the whole stretch. */
  lemma DeltasCompose(r: Room, steps: seq<Step>, since: nat, allowed: set<u64>)
    requires Versioned(r) && since <= r.counter
    ensures Flatten(Delta(r, since, allowed)) + Flatten(Delta(Run(r, steps), r.counter, allowed))
         == Flatten(Delta(Run(r, steps), since, allowed))
  {
    RunGrows(r, steps);
    DeltasOfGrowth(r, Run(r, steps), since, allowed);
  }

  lemma DeltasOfGrowth(r: Room, later: Room, since: nat, allowed: set<u64>)
    requires Bounded(r) && Bounded(later) && Grows(r, later) && since <= r.counter
    ensures Flatten(Delta(r, since, allowed)) + Flatten(Delta(later, r.counter, allowed))
         == Flatten(Delta(later, since, allowed))
  {
    var first, second := Flatten(Delta(r, since, allowed)), Flatten(Delta(later, r.counter, allowed));
    var whole := Flatten(Delta(later, since, allowed));
    DeltaContent(r, since, allowed);
    DeltaContent(later, r.counter, allowed);
    DeltaContent(later, since, allowed);
    forall b: u64, k
      ensures Lookup(first + second, (BucketName(b), k)) == Lookup(whole, (BucketName(b), k))
    {
      JoinAt(first, second, (BucketName(b), k));
      DeltaPoint(r, later, since, allowed, b, k);
    }
    SameContent(first + second, whole);
  }

  lemma JoinAt(first: Content, second: Content, p: (string, string))
    ensures Lookup(first + second, p) == if Lookup(second, p).Some? then Lookup(second, p) else Lookup(first, p)
  {
  }

  lemma DeltaPoint(r: Room, later: Room, since: nat, allowed: set<u64>, b: u64, k: string)
    requires Bounded(r) && Grows(r, later) && since <= r.counter
    ensures DeltaAt(later, since, allowed, b, k) ==
            if DeltaAt(later, r.counter, allowed, b, k).Some? then DeltaAt(later, r.counter, allowed, b, k)
            else DeltaAt(r, since, allowed, b, k)
  {
  }

  ghost predicate NothingFromStore(r: Room, allowed: set<u64>) {
    forall b: u64, k :: SnapshotAt(r, allowed, b, k).Some? ==> EntryAt(r, b, k).value.version > 0
  }

  lemma SinceZeroAt(r: Room, allowed: set<u64>)
    requires Versioned(r)
    ensures forall b: u64, k ::
              Lookup(Overlay(map[], Flatten(Delta(r, 0, allowed))), (BucketName(b), k)) ==
              Lookup(Flatten(Snapshot(r, allowed)), (BucketName(b), k))
              <==> (SnapshotAt(r, allowed, b, k).Some? ==> EntryAt(r, b, k).value.version > 0)
  {
    SnapshotContent(r, allowed);
    DeltaContent(r, 0, allowed);
    forall b: u64, k {
      OverlayAt(map[], Flatten(Delta(r, 0, allowed)), (BucketName(b), k));
    }
  }

  /** The delta since 0 is the whole room exactly when no live visible entry came from the store with version 0. */
  lemma DeltaSinceZero(r: Room, allowed: set<u64>)
    requires Versioned(r)
    ensures Overlay(map[], Flatten(Delta(r, 0, allowed))) == Flatten(Snapshot(r, allowed))
       <==> NothingFromStore(r, allowed)
  {
    var base, snapshot := Overlay(map[], Flatten(Delta(r, 0, allowed))), Flatten(Snapshot(r, allowed));
    SinceZeroAt(r, allowed);
    if NothingFromStore(r, allowed) {
      SnapshotContent(r, allowed);
      DeltaContent(r, 0, allowed);
      SameContent(base, snapshot);
    } else {
      var b: u64, k :| SnapshotAt(r, allowed, b, k).Some? && EntryAt(r, b, k).value.version == 0;
      assert Lookup(base, (BucketName(b), k)) != Lookup(snapshot, (BucketName(b), k));
    }
  }

  /** Every entry was written by a set or a delete of this process. */
  ghost predicate AllWritten(r: Room) {
    forall b: u64, k :: EntryAt(r, b, k).Some? ==> EntryAt(r, b, k).value.version > 0
  }

  lemma {:induction false} CommitWritten(r: Room, ops: seq<RoomCommand>)
    requires AllWritten(r)
    ensures AllWritten(Commit(r, ops))
  {
    forall b: u64, k {
      CommitEntry(r, ops, b, k);
    }
  }

  lemma HappenWritten(r: Room, e: Event)
    requires AllWritten(r) && !e.Loaded?
    ensures AllWritten(Happen(r, e))
  {
    var r' := Happen(r, e);
    if e.Stepped? && e.step.End? && !r.ioLocked && r.txBuffer.Some? {
      var closed := r.(txBuffer := None);
      assert forall b: u64, k :: EntryAt(closed, b, k) == EntryAt(r, b, k);
      CommitWritten(closed, r.txBuffer.value);
    } else {
      assert forall b: u64, k :: EntryAt(r', b, k).Some? ==>
               EntryAt(r', b, k) == EntryAt(r, b, k) || EntryAt(r', b, k).value.version == r.counter + 1;
    }
  }

  lemma {:induction false} NeverLoadedWritten(loaded: bool, events: seq<Event>)
    requires forall i | 0 <= i < |events| :: !events[i].Loaded?
    ensures AllWritten(History(NewRoom(loaded), events))
  {
    if events == [] {
      assert forall b: u64, k :: EntryAt(NewRoom(loaded), b, k) == None;
    } else {
      NeverLoadedWritten(loaded, events[..|events| - 1]);
      HappenWritten(History(NewRoom(loaded), events[..|events| - 1]), events[|events| - 1]);
    }
  }

  /** In a room never loaded from disk the delta since 0, with nulls dropped, is the snapshot. */
  lemma NeverLoadedDelta(loaded: bool, events: seq<Event>, allowed: set<u64>)
    requires forall i | 0 <= i < |events| :: !events[i].Loaded?
    ensures var r := History(NewRoom(loaded), events);
      Overlay(map[], Flatten(Delta(r, 0, allowed))) == Flatten(Snapshot(r, allowed))
  {
    NewRoomVersioned(loaded);
    VersionOrder(NewRoom(loaded), events);
    NeverLoadedWritten(loaded, events);
    DeltaSinceZero(History(NewRoom(loaded), events), allowed);
  }

  /** A live visible fragment read back from disk is missing from the delta since 0 of the loaded room. */
  lemma LoadedDeltaFallsShort(r: Room, stored: map<u64, map<string, Value>>, labels: map<u64, string>,
                              flags: map<u64, nat>, members: set<string>, allowed: set<u64>, b: u64, k: string)
    requires Versioned(r) && b in stored && k in stored[b] && stored[b][k] != Null && Visible(b, allowed)
    ensures var r' := Load(r, stored, labels, flags, members);
      Overlay(map[], Flatten(Delta(r', 0, allowed))) != Flatten(Snapshot(r', allowed))
  {
    var r' := Load(r, stored, labels, flags, members);
    HappenVersioned(r, Loaded(stored, labels, flags, members));
    assert EntryAt(r', b, k) == Some(Entry(stored[b][k], 0)) && SnapshotAt(r', allowed, b, k).Some?;
    DeltaSinceZero(r', allowed);
  }

  // ---------- transactions ----------

  predicate Touches(c: RoomCommand, b: u64, k: string) {
    c.bucket == b && c.key == k
  }

  /** Position of the last command that touches (b, k), or -1. */
  function LastTouch(ops: seq<RoomCommand>, b: u64, k: string): (i: int)
    ensures -1 <= i < |ops| && (i >= 0 ==> Touches(ops[i], b, k))
    ensures forall j | i < j < |ops| :: !Touches(ops[j], b, k)
  {
    if ops == [] then -1
    else if Touches(ops[|ops| - 1], b, k) then |ops| - 1
    else LastTouch(ops[..|ops| - 1], b, k)
  }

  /** What a commit leaves: a touched key holds its last command, stamped with that command's position. */
  lemma {:induction false} CommitEntry(r: Room, ops: seq<RoomCommand>, b: u64, k: string)
    ensures Commit(r, ops).counter == r.counter + |ops|
    ensures var i := LastTouch(ops, b, k);
      EntryAt(Commit(r, ops), b, k) ==
      if i < 0 then EntryAt(r, b, k) else Some(Entry(ops[i].Stored(), r.counter + i + 1))
  {
    if ops != [] {
      CommitEntry(r, ops[..|ops| - 1], b, k);
      PutEntry(Commit(r, ops[..|ops| - 1]), ops[|ops| - 1], b, k);
    }
  }

  ghost predicate Idle(r: Room) {
    r.loaded && !r.ioLocked && r.txBuffer.None?
  }

  lemma OpsTail(ops: seq<RoomCommand>)
    requires ops != []
    ensures Ops(ops)[..|ops| - 1] == Ops(ops[..|ops| - 1]) && Ops(ops)[|ops| - 1] == Op(ops[|ops| - 1])
  {
  }

  lemma {:induction false} Buffering(r: Room, ops: seq<RoomCommand>)
    requires r.loaded && !r.ioLocked && r.txBuffer.Some?
    ensures Run(r, Ops(ops)) == r.(txBuffer := Some(r.txBuffer.value + ops))
  {
    if ops == [] {
      assert r.txBuffer.value + ops == r.txBuffer.value;
    } else {
      OpsTail(ops);
      Buffering(r, ops[..|ops| - 1]);
      assert r.txBuffer.value + ops == r.txBuffer.value + ops[..|ops| - 1] + [ops[|ops| - 1]];
    }
  }

  lemma TransactionCommits(r: Room, ops: seq<RoomCommand>)
    requires Idle(r)
    ensures Run(r, [Begin] + Ops(ops) + [End]) == Commit(r, ops)
  {
    var open := TxBegin(r).0;
    var steps := [Begin] + Ops(ops) + [End];
    assert steps[..|steps| - 1] == [Begin] + Ops(ops);
    RunJoin(r, [Begin], Ops(ops));
    assert Run(r, [Begin]) == open by { assert [Begin][..0] == []; }
    Buffering(open, ops);
    assert [] + ops == ops;
    assert r.(txBuffer := Some(ops)).(txBuffer := None) == r;
  }

  lemma {:induction false} RunJoin(r: Room, first: seq<Step>, second: seq<Step>)
    ensures Run(r, first + second) == Run(Run(r, first), second)
  {
    if second == [] {
      assert first + second == first;
    } else {
      RunJoin(r, first, second[..|second| - 1]);
      assert (first + second)[..|first + second| - 1] == first + second[..|second| - 1];
    }
  }

  /** Every delete finds its bucket: it is there already, or an earlier set of the same list creates it. */
  ghost predicate DeletesFindBuckets(r: Room, ops: seq<RoomCommand>) {
    forall i | 0 <= i < |ops| && ops[i].Del? ::
      ops[i].bucket in r.buckets || exists j | 0 <= j < i :: ops[j].Set? && ops[j].bucket == ops[i].bucket
  }

  ghost predicate FindsBucket(r: Room, ops: seq<RoomCommand>, b: u64) {
    b in r.buckets || exists j | 0 <= j < |ops| :: ops[j].Set? && ops[j].bucket == b
  }

  lemma {:induction false} DirectRun(r: Room, ops: seq<RoomCommand>)
    requires Idle(r)
    ensures Idle(Run(r, Ops(ops))) && Run(r, Ops(ops)).counter <= r.counter + |ops|
    ensures forall b: u64 :: b in Run(r, Ops(ops)).buckets <==> FindsBucket(r, ops, b)
  {
    if ops != [] {
      var init, last := ops[..|ops| - 1], ops[|ops| - 1];
      OpsTail(ops);
      DirectRun(r, init);
      assert forall j | 0 <= j < |init| :: init[j] == ops[j];
      assert forall b: u64 :: FindsBucket(r, ops, b) <==> FindsBucket(r, init, b) || (last.Set? && last.bucket == b);
    }
  }

  lemma {:induction false} DirectAgrees(r: Room, ops: seq<RoomCommand>)
    requires Idle(r)
    ensures DeletesFindBuckets(r, ops) ==> Run(r, Ops(ops)) == Commit(r, ops)
    ensures Run(r, Ops(ops)).counter == r.counter + |ops| ==> DeletesFindBuckets(r, ops)
  {
    if ops != [] {
      var init, last := ops[..|ops| - 1], ops[|ops| - 1];
      OpsTail(ops);
      DirectRun(r, init);
      DirectAgrees(r, init);
      DeletesFindBucketsTail(r, ops);
    }
  }

  lemma DeletesFindBucketsTail(r: Room, ops: seq<RoomCommand>)
    requires ops != []
    ensures var init, last := ops[..|ops| - 1], ops[|ops| - 1];
      DeletesFindBuckets(r, ops) <==> DeletesFindBuckets(r, init) && (last.Del? ==> FindsBucket(r, init, last.bucket))
  {
    var init, last := ops[..|ops| - 1], ops[|ops| - 1];
    assert forall i | 0 <= i < |init| :: init[i] == ops[i];
    if DeletesFindBuckets(r, init) && (last.Del? ==> FindsBucket(r, init, last.bucket)) {
      forall i | 0 <= i < |ops| && ops[i].Del?
        ensures ops[i].bucket in r.buckets || exists j | 0 <= j < i :: ops[j].Set? && ops[j].bucket == ops[i].bucket
      {
        if i < |init| { assert init[i].Del?; }
      }
    }
  }

  /**
   A transaction leaves the same room as applying its commands directly, exactly when every delete finds its
   bucket: a direct delete of a missing bucket fails, a buffered one always leaves a tombstone.
   */
  lemma TransactionEquivalence(r: Room, ops: seq<RoomCommand>)
    requires Idle(r)
    ensures Run(r, [Begin] + Ops(ops) + [End]) == Run(r, Ops(ops)) <==> DeletesFindBuckets(r, ops)
  {
    TransactionCommits(r, ops);
    DirectAgrees(r, ops);
    CommitEntry(r, ops, 0, "");
  }

  /** Deleting a key of a missing bucket: refused directly, a tombstone in a transaction. */
  lemma MissingBucketDiffers(r: Room, b: u64, k: string)
    requires Idle(r) && b !in r.buckets
    ensures Run(r, [Begin] + Ops([Del(b, k)]) + [End]) != Run(r, Ops([Del(b, k)]))
  {
    assert [Del(b, k)][0] == Del(b, k) && !DeletesFindBuckets(r, [Del(b, k)]);
    TransactionEquivalence(r, [Del(b, k)]);
  }

  lemma {:induction false} BufferedOnly(r: Room, ops: seq<RoomCommand>)
    requires r.txBuffer.Some?
    ensures Run(r, Ops(ops)).txBuffer.Some? && Run(r, Ops(ops)) == r.(txBuffer := Run(r, Ops(ops)).txBuffer)
  {
    if ops != [] {
      OpsTail(ops);
      BufferedOnly(r, ops[..|ops| - 1]);
    }
  }

  /**
   While a transaction is open no reader can tell: every fetch, snapshot, delta and the version answer as before
   it began, and aborting puts the room back as it was.
   */
  lemma TransactionIsolation(r: Room, ops: seq<RoomCommand>)
    requires r.txBuffer.None?
    ensures var during := Run(r, [Begin] + Ops(ops));
      && during.counter == r.counter
      && (forall b: u64, k :: GetFragment(during, b, k) == GetFragment(r, b, k))
      && (forall allowed :: Snapshot(during, allowed) == Snapshot(r, allowed))
      && (forall allowed, since: nat :: Delta(during, since, allowed) == Delta(r, since, allowed))
      && TxAbort(during).0 == r
  {
    RunJoin(r, [Begin], Ops(ops));
    assert Run(r, [Begin]) == TxBegin(r).0 by { assert [Begin][..0] == []; }
    if r.ioLocked {
      Refused(r, ops);
    } else {
      BufferedOnly(TxBegin(r).0, ops);
    }
  }

  lemma {:induction false} Refused(r: Room, ops: seq<RoomCommand>)
    requires r.ioLocked
    ensures Run(r, Ops(ops)) == r
  {
    if ops != [] {
      OpsTail(ops);
      Refused(r, ops[..|ops| - 1]);
    }
  }
}
