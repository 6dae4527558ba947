/** Where a reload does change an answer: both ways it can happen, from any state and from the start of the server. */
module WorldWitnesses {
  import opened Basics
  import opened RoomModel
  import opened RoomTheorems
  import opened StoreModel
  import opened StoreTheorems
  import opened WorldModel
  import opened WorldTheorems
  import opened WorldVersions

  // ---------- what a command leaves ----------

  ghost predicate Ready(w: World, id: nat) {
    Agrees(w) && id in w.rooms && w.rooms[id].loaded
  }

  lemma WrittenRoom(w: World, w': World, id: nat, b: u64, k: string, v: Value)
    requires Ready(w, id) && v != Null && w' == Handle(w, WriteFragment(id, b, k, v)).0
    ensures Ready(w', id) && w'.rooms[id].flags == w.rooms[id].flags
    ensures EntryAt(w'.rooms[id], b, k).Some? && EntryAt(w'.rooms[id], b, k).value.value == v
  {
    var c := WriteFragment(id, b, k, v);
    PairOf(w, id);
    HandleAgrees(w, c);
    HandledRoom(w, c, id);
    WrittenEntry(w.rooms[id], c);
    assert Lookup(w'.rooms, id) == Some(RoomAfter(w.rooms[id], c));
  }

  lemma WrittenEntry(r: Room, c: Command)
    requires Idle(r) && c.WriteFragment?
    ensures var r' := RoomAfter(r, c);
      r'.loaded && r'.flags == r.flags && EntryAt(r', c.bucket, c.key) == Some(Entry(c.value, r.counter + 1))
  {
    PutEntry(r, Set(c.bucket, c.key, c.value), c.bucket, c.key);
  }

  lemma DeletedRoom(w: World, id: nat, b: u64)
    requires Ready(w, id)
    ensures var w' := DoDeleteBucket(w, id, b).0;
      && Ready(w', id) && w'.rooms[id] == DropBucket(w.rooms[id], b)
      && forall b': u64, k :: StoredAt(w'.dbs[id], b', k) == StoredAt(w.dbs[id], b', k)
  {
    PairOf(w, id);
    DeleteBucketAgrees(w, id, b);
    RecordWritten(w.dbs[id], id, b, None);
  }

  lemma DeclaredRoom(w: World, id: nat, b: u64, name: string)
    requires Ready(w, id)
    ensures var w' := DoNewBucket(w, id, b, name).0;
      && Ready(w', id) && w'.rooms[id] == AddBucket(w.rooms[id], b, Trim(name)) && b in Scan(w'.dbs[id])
      && forall b': u64, k :: StoredAt(w'.dbs[id], b', k) == StoredAt(w.dbs[id], b', k)
  {
    PairOf(w, id);
    NewBucketAgrees(w, id, b, name);
    RecordWritten(w.dbs[id], id, b, Some(RecordFor(b, Trim(name))));
  }

  // ---------- from any state ----------

  /** A live fragment written into a bucket without a record is gone after a reload. */
  lemma UndeclaredIsLost(w: World, w': World, id: nat, b: u64, k: string, v: Value)
    requires Ready(w, id) && b !in w.rooms[id].flags && v != Null && w' == Handle(w, WriteFragment(id, b, k, v)).0
    ensures Answer(w', id, b, k) == FragmentReadResponse(Some(v))
    ensures Answer(Reloaded(w', id), id, b, k) == Answer(ColdStarted(w', id), id, b, k) == FragmentReadResponse(None)
  {
    WrittenRoom(w, w', id, b, k, v);
    LostOnReload(w', id, b, k);
  }

  lemma LostOnReload(w: World, id: nat, b: u64, k: string)
    requires Ready(w, id) && b !in w.rooms[id].flags && Live(w.rooms[id], b, k)
    ensures Answer(w, id, b, k) == FragmentReadResponse(Some(EntryAt(w.rooms[id], b, k).value.value))
    ensures Answer(Reloaded(w, id), id, b, k) == Answer(ColdStarted(w, id), id, b, k) == FragmentReadResponse(None)
  {
    PairOf(w, id);
    AnswerOf(w, id, b, k);
    ReloadAnswers(w, id, b, k);
  }

  /** The fragments of a deleted bucket that is declared again are unseen, until a reload brings them back. */
  lemma DeletedComesBack(w: World, id: nat, b: u64, k: string, name: string)
    requires Ready(w, id) && Live(w.rooms[id], b, k)
    ensures var w', v := DoNewBucket(DoDeleteBucket(w, id, b).0, id, b, name).0, EntryAt(w.rooms[id], b, k).value.value;
      && Answer(w, id, b, k) == FragmentReadResponse(Some(v))
      && Answer(w', id, b, k) == FragmentReadResponse(None)
      && Answer(Reloaded(w', id), id, b, k) == Answer(ColdStarted(w', id), id, b, k) == FragmentReadResponse(Some(v))
  {
    var mid := DoDeleteBucket(w, id, b).0;
    var w' := DoNewBucket(mid, id, b, name).0;
    DeletedRoom(w, id, b);
    DeclaredRoom(mid, id, b, name);
    PairOf(w, id);
    AnswerOf(w, id, b, k);
    AnswerOf(w', id, b, k);
    ReloadAnswers(w', id, b, k);
  }

  // ---------- from the start of the server ----------

  lemma Ran(steps: seq<WorldStep>, c: Command)
    ensures After(steps + [Issue(c)]) == Handle(After(steps), c).0
  {
    assert (steps + [Issue(c)])[..|steps|] == steps;
  }

  lemma FirstRoom() returns (steps: seq<WorldStep>)
    ensures Ready(After(steps), 1) && After(steps).rooms[1].flags == map[]
  {
    steps := [] + [Issue(NewRoomCommand)];
    AlwaysAgrees(steps);
    Ran([], NewRoomCommand);
  }

  /** A new room, and a write into a bucket that was never declared: a reload loses it. */
  lemma ReloadLoses(b: u64, k: string, v: Value) returns (steps: seq<WorldStep>)
    requires v != Null
    ensures var w := After(steps);
      && Answer(w, 1, b, k) == FragmentReadResponse(Some(v))
      && Answer(Reloaded(w, 1), 1, b, k) == FragmentReadResponse(None)
  {
    var start := FirstRoom();
    steps := start + [Issue(WriteFragment(1, b, k, v))];
    Ran(start, WriteFragment(1, b, k, v));
    UndeclaredIsLost(After(start), After(steps), 1, b, k, v);
  }

  lemma DeclaredAndWritten(b: u64, k: string, v: Value) returns (steps: seq<WorldStep>)
    requires v != Null
    ensures var w := After(steps); Ready(w, 1) && Live(w.rooms[1], b, k) && EntryAt(w.rooms[1], b, k).value.value == v
  {
    var start := FirstRoom();
    var declared := start + [Issue(NewBucket(1, b, ""))];
    steps := declared + [Issue(WriteFragment(1, b, k, v))];
    Ran(start, NewBucket(1, b, ""));
    Ran(declared, WriteFragment(1, b, k, v));
    DeclaredRoom(After(start), 1, b, "");
    WrittenRoom(After(declared), After(steps), 1, b, k, v);
  }

  /** A bucket is declared, written, deleted and declared again: a reload brings the fragment back. */
  lemma ReloadRevives(b: u64, k: string, v: Value) returns (steps: seq<WorldStep>)
    requires v != Null
    ensures var w := After(steps);
      && Answer(w, 1, b, k) == FragmentReadResponse(None)
      && Answer(Reloaded(w, 1), 1, b, k) == FragmentReadResponse(Some(v))
  {
    var start := DeclaredAndWritten(b, k, v);
    var deleted := start + [Issue(DeleteBucket(1, b))];
    steps := deleted + [Issue(NewBucket(1, b, ""))];
    Ran(start, DeleteBucket(1, b));
    Ran(deleted, NewBucket(1, b, ""));
    DeletedComesBack(After(start), 1, b, k, "");
  }
}
