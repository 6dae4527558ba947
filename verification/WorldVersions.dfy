/** Version order over whole runs of the server: a room's counter counts the writes applied to it. */
module WorldVersions {
  import opened Basics
  import opened RoomModel
  import opened RoomTheorems
  import opened StoreModel
  import opened WorldModel
  import opened WorldTheorems

  /** The room is created or registered afresh by this step. */
  ghost predicate Starts(w: World, step: WorldStep, id: nat) {
    step.ColdStart? || (step == Issue(NewRoomCommand) && id == w.nextRoomId)
  }

  predicate WritesTo(w: World, step: WorldStep, id: nat) {
    step.Issue? && step.command.WriteFragment? && step.command.room == id && id in w.rooms && w.rooms[id].loaded
  }

  /** The writes applied to a room since it was created or registered, told from the run. */
  ghost function WritesSince(steps: seq<WorldStep>, id: nat): nat {
    if steps == [] then 0
    else
      var init, last := steps[..|steps| - 1], steps[|steps| - 1];
      if Starts(After(init), last, id) then 0
      else WritesSince(init, id) + if WritesTo(After(init), last, id) then 1 else 0
  }

  ghost predicate MovesOn(r: Room, r': Room, applied: nat) {
    Versioned(r') && r'.counter == r.counter + applied
  }

  lemma SameEntriesMoveOn(r: Room, r': Room)
    requires Versioned(r) && r'.counter == r.counter && r'.buckets == r.buckets
    ensures MovesOn(r, r', 0)
  {
    assert forall b: u64, k :: EntryAt(r', b, k) == EntryAt(r, b, k);
    FewerEntriesVersioned(r, r');
  }

  lemma RestoredMovesOn(r: Room, s: Store, id: nat, records: Records)
    requires Versioned(r)
    ensures MovesOn(r, Restored(r, s, id, records), 0)
  {
  }

  /** What a command makes of its own room, when that is loaded. */
  function RoomAfter(r: Room, c: Command): Room {
    match c
    case NewBucket(_, b, name) => AddBucket(r, b, Trim(name))
    case DeleteBucket(_, b) => DropBucket(r, b)
    case NewMember(_, m) => if Trim(m) == "" then r else r.(members := r.members + {Trim(m)})
    case DeleteMember(_, m) => r.(members := r.members - {Trim(m)})
    case WriteFragment(_, b, k, v) => Apply(r, Set(b, k, v)).0
    case _ => r
  }

  predicate OnLoadedRoom(w: World, c: Command, id: nat) {
    && !c.NewRoomCommand? && !c.LoadRoom? && !c.UnloadRoom? && c.room == id
    && id in w.rooms && w.rooms[id].loaded
  }

  lemma HandledRoom(w: World, c: Command, id: nat)
    requires OnLoadedRoom(w, c, id)
    ensures Lookup(Handle(w, c).0.rooms, id) == Some(RoomAfter(w.rooms[id], c))
  {
  }

  lemma RoomAfterMovesOn(r: Room, c: Command)
    requires Versioned(r) && Idle(r)
    ensures MovesOn(r, RoomAfter(r, c), if c.WriteFragment? then 1 else 0)
  {
    match c
    case NewBucket(_, b, name) => HappenVersioned(r, BucketAdded(b, Trim(name)));
    case DeleteBucket(_, b) => HappenVersioned(r, BucketDropped(b));
    case WriteFragment(_, b, k, v) => HappenVersioned(r, Stepped(Op(Set(b, k, v))));
    case _ => SameEntriesMoveOn(r, RoomAfter(r, c));
  }

  /** A command that leaves the room alone. */
  lemma OtherCommandMovesOn(w: World, c: Command, id: nat)
    requires !c.NewRoomCommand? && (c.room != id || id !in w.rooms || !w.rooms[id].loaded)
    requires c.LoadRoom? || c.UnloadRoom? ==> c.room != id
    ensures Lookup(Handle(w, c).0.rooms, id) == Lookup(w.rooms, id) && !WritesTo(w, Issue(c), id)
  {
    OtherRoomUntouched(w, c, id);
  }

  lemma ReloadMovesOn(w: World, c: Command, id: nat)
    requires Agrees(w) && (c.LoadRoom? || c.UnloadRoom?) && c.room == id && id in Handle(w, c).0.rooms
    requires id in w.rooms ==> Versioned(w.rooms[id])
    ensures id in w.rooms && MovesOn(w.rooms[id], Handle(w, c).0.rooms[id], 0)
  {
    if c.LoadRoom? {
      LoadAgrees(w, id);
      RestoredMovesOn(w.rooms[id], w.dbs[id], id, Scan(w.dbs[id]));
    } else {
      HappenVersioned(w.rooms[id], Unloaded);
    }
  }

  lemma CommandMovesOn(w: World, c: Command, id: nat)
    requires Agrees(w) && id in Handle(w, c).0.rooms && !Starts(w, Issue(c), id)
    requires id in w.rooms ==> Versioned(w.rooms[id])
    ensures id in w.rooms
    ensures MovesOn(w.rooms[id], Handle(w, c).0.rooms[id], if WritesTo(w, Issue(c), id) then 1 else 0)
  {
    if c.NewRoomCommand? {
    } else if (c.LoadRoom? || c.UnloadRoom?) && c.room == id {
      ReloadMovesOn(w, c, id);
    } else if c.room != id || id !in w.rooms || !w.rooms[id].loaded {
      OtherCommandMovesOn(w, c, id);
    } else {
      HandledRoom(w, c, id);
      PairOf(w, id);
      RoomAfterMovesOn(w.rooms[id], c);
    }
  }

  /**
   In every state the server reaches, every room's versions are in order, and its counter is the number of writes
   applied since the room was created or registered: loading, unloading and deleting buckets never take it back.
   */
  lemma {:induction false} CounterCountsWrites(steps: seq<WorldStep>, id: nat)
    requires id in After(steps).rooms
    ensures Versioned(After(steps).rooms[id]) && After(steps).rooms[id].counter == WritesSince(steps, id)
  {
    var init, last := steps[..|steps| - 1], steps[|steps| - 1];
    AlwaysAgrees(init);
    if Starts(After(init), last, id) {
      NewRoomVersioned(true);
      NewRoomVersioned(false);
    } else {
      if id in After(init).rooms { CounterCountsWrites(init, id); }
      if last.Issue? { CommandMovesOn(After(init), last.command, id); }
    }
  }
}
