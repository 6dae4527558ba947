/** What each command answers and leaves behind, outcome by outcome, and which rooms are loaded, over whole runs. */
module WorldOutcomes {
  import opened Basics
  import opened Protocol
  import opened RoomModel
  import opened RoomTheorems
  import opened RoomOutcomes
  import opened StoreModel
  import opened StoreTheorems
  import opened WorldModel
  import opened WorldTheorems
  import WorldVersions

  const REFUSED := LoadRoomResponse(Failed(RoomNotLoaded))

  /** The room and its store are these now; every other room and store is as before. */
  ghost predicate OnlyRoom(w: World, w': World, id: nat, r: Room, s: Store) {
    && w'.nextRoomId == w.nextRoomId
    && w'.rooms.Keys == w.rooms.Keys && id in w'.rooms && w'.rooms[id] == r
    && w'.dbs.Keys == w.dbs.Keys && id in w'.dbs && w'.dbs[id] == s
    && (forall other :: other in w.rooms && other != id ==> w'.rooms[other] == w.rooms[other])
    && (forall other :: other in w.dbs && other != id ==> w'.dbs[other] == w.dbs[other])
  }

  lemma MovedOnly(w: World, id: nat, r: Room, s: Store, records: Records, channel: seq<ChannelMessage>)
    requires id in w.rooms && id in w.dbs
    ensures OnlyRoom(w, Moved(w, id, r, s, records, channel), id, r, s)
  {
  }

  ghost predicate Ready(w: World, id: nat) {
    Agrees(w) && id in w.rooms && id in w.dbs && w.rooms[id].loaded
  }

  // ---------- refusals ----------

  /** A room that is not loaded refuses every command but load and unload, and nothing changes. */
  lemma UnloadedRefuses(w: World, c: Command, id: nat)
    requires Agrees(w) && id in w.rooms && !w.rooms[id].loaded
    requires !c.NewRoomCommand? && !c.LoadRoom? && !c.UnloadRoom? && c.room == id
    ensures Handle(w, c) == (w, LoadRoomResponse(Failed(RoomNotLoaded)))
  {
    PairOf(w, id);
  }

  /** A room that does not exist: only a load leaves a trace, an opened store and a cache entry. */
  lemma UnknownRefuses(w: World, c: Command, id: nat)
    requires id !in w.rooms && !c.NewRoomCommand? && c.room == id
    ensures !c.LoadRoom? ==> Handle(w, c).0 == w
    ensures Handle(w, c).1 == match c
            case NewBucket(_, _, _) => NewBucketResponse
            case DeleteBucket(_, _) => DeleteBucketResponse
            case NewMember(_, _) => NewMemberResponse
            case DeleteMember(_, _) => DeleteMemberResponse
            case WriteFragment(_, _, _, _) => REFUSED
            case ReadFragment(_, _, _) => FragmentReadResponse(None)
            case LoadRoom(_) => LoadRoomResponse(Failed(RoomNotFound))
            case UnloadRoom(_) => UnloadRoomResponse(Failed(RoomNotFound))
  {
  }

  lemma UnknownLoad(w: World, id: nat)
    requires Agrees(w) && id !in w.rooms
    ensures var w' := DoLoadRoom(w, id).0;
      && w'.rooms == w.rooms && w'.nextRoomId == w.nextRoomId && w'.channel == w.channel
      && w'.dbs == (if id in w.dbs then w.dbs else w.dbs[id := map[]])
      && id in w'.cache && w'.cache[id] == Scan(w'.dbs[id])
  {
    LoadAgrees(w, id);
  }

  // ---------- creating, unloading and loading ----------

  ghost predicate EmptyRoom(r: Room) {
    r.loaded && r.counter == 0 && Idle(r) && HoldsNothing(r)
  }

  lemma NewRoomEmpty()
    ensures EmptyRoom(NewRoom(true))
  {
  }

  lemma FreshStore(w: World)
    requires Agrees(w)
    ensures w.nextRoomId !in w.rooms
    ensures w.nextRoomId in OpenDb(w, w.nextRoomId).dbs && OpenDb(w, w.nextRoomId).dbs[w.nextRoomId] == map[]
  {
  }

  /** The id answered is new; the room under it is loaded and empty, with an empty store; all else stays. */
  lemma NewRoomOutcome(w: World)
    requires Agrees(w)
    ensures var (w', answer) := DoNewRoom(w);
      && answer.NewRoomResponse? && answer.id !in w.rooms && answer.id == w.nextRoomId < w'.nextRoomId
      && w'.rooms.Keys == w.rooms.Keys + {answer.id} && EmptyRoom(w'.rooms[answer.id])
      && (forall other :: other in w.rooms ==> w'.rooms[other] == w.rooms[other])
      && answer.id in w'.dbs && w'.dbs[answer.id] == map[] && w'.cache == w.cache && w'.channel == w.channel
      && (forall other :: other in w.dbs && other != answer.id ==> w'.dbs[other] == w.dbs[other])
  {
    FreshStore(w);
    NewRoomEmpty();
    assert DoNewRoom(w).0.rooms == w.rooms[w.nextRoomId := NewRoom(true)];
    assert DoNewRoom(w).0.dbs == OpenDb(w, w.nextRoomId).dbs;
  }

  /** After unloading, the room holds nothing and reads are refused; all stores and all other rooms stay. */
  lemma UnloadRoomOutcome(w: World, id: nat)
    requires Agrees(w) && id in w.rooms && id in w.dbs
    ensures var (w', answer) := DoUnloadRoom(w, id);
      && answer == UnloadRoomResponse(Done)
      && OnlyRoom(w, w', id, w'.rooms[id], w.dbs[id]) && w'.cache == w.cache && w'.channel == w.channel
      && !w'.rooms[id].loaded && HoldsNothing(w'.rooms[id]) && w'.rooms[id].counter == w.rooms[id].counter
    ensures forall b: u64, k :: Answer(DoUnloadRoom(w, id).0, id, b, k) == LoadRoomResponse(Failed(RoomNotLoaded))
  {
    PairOf(w, id);
  }

  /** The room holds what the store holds for the buckets that have a record, and the stored metadata. */
  ghost predicate AsStored(r: Room, s: Store, id: nat) {
    && (forall b: u64, k :: EntryAt(r, b, k) ==
          if b in Scan(s) && StoredAt(s, b, k).Some? then Some(Entry(StoredAt(s, b, k).value, 0)) else None)
    && AsRecorded(r, Scan(s), StoredMembers(s, id))
  }

  ghost predicate AsRecorded(r: Room, records: Records, members: set<string>) {
    && (forall b: u64 :: b in r.buckets <==> b in records)
    && (forall b: u64 :: Lookup(r.labels, b) == if b in records then records[b].title else None)
    && (forall b: u64 :: Lookup(r.flags, b) == if b in records then Some(records[b].flags) else None)
    && r.members == members
  }

  lemma RestoredAsStored(r: Room, s: Store, id: nat)
    requires Sound(s, id)
    ensures AsStored(Restored(r, s, id, Scan(s)), s, id)
  {
    RestoredEntries(r, s, id);
    MetadataRestored(r, s, id, Scan(s));
  }

  lemma MetadataRestored(r: Room, s: Store, id: nat, records: Records)
    ensures var r' := Restored(r, s, id, records);
      AsRecorded(r', records, StoredMembers(s, id)) && r'.loaded && r'.counter == r.counter
  {
  }

  /** After loading, the room is as its store describes it, whatever it held before. */
  lemma LoadRoomOutcome(w: World, id: nat)
    requires Agrees(w) && id in w.rooms && id in w.dbs
    ensures var (w', answer) := DoLoadRoom(w, id);
      && answer == LoadRoomResponse(Done)
      && OnlyRoom(w, w', id, w'.rooms[id], w.dbs[id]) && w'.channel == w.channel
      && w'.rooms[id].loaded && w'.rooms[id].counter == w.rooms[id].counter
      && AsStored(w'.rooms[id], w.dbs[id], id)
  {
    PairOf(w, id);
    LoadAgrees(w, id);
    RestoredAsStored(w.rooms[id], w.dbs[id], id);
    MetadataRestored(w.rooms[id], w.dbs[id], id, Scan(w.dbs[id]));
  }

  // ---------- buckets ----------

  /** The label as stored: trimmed, and none at all when nothing is left. */
  function StoredLabel(name: string): Option<string> {
    if Trim(name) == "" then None else Some(Trim(name))
  }

  /** One bucket record is replaced or removed; fragments, members and all other records stay. */
  ghost predicate RecordSet(s: Store, s': Store, id: nat, b: u64, rec: Option<BucketRecord>) {
    && (forall b': u64 :: Lookup(Scan(s'), b') == if b' == b then rec else Lookup(Scan(s), b'))
    && (forall b': u64, k :: StoredAt(s', b', k) == StoredAt(s, b', k))
    && StoredMembers(s', id) == StoredMembers(s, id)
  }

  lemma PutBucketOutcome(s: Store, id: nat, b: u64, name: string)
    requires Sound(s, id)
    ensures RecordSet(s, PutBucket(s, id, RecordFor(b, Trim(name))), id, b, Some(BucketRecord(b, StoredLabel(name), 0)))
  {
    RecordWritten(s, id, b, Some(RecordFor(b, Trim(name))));
  }

  lemma RemoveBucketOutcome(s: Store, id: nat, b: u64)
    requires Sound(s, id)
    ensures RecordSet(s, RemoveBucket(s, id, b), id, b, None)
  {
    RecordWritten(s, id, b, None);
  }

  /** Declaring a bucket stores its label and shows it, unless it is blank, when the label in memory stays as it was. */
  lemma NewBucketOutcome(w: World, id: nat, b: u64, name: string)
    requires Ready(w, id)
    ensures var (w', answer) := DoNewBucket(w, id, b, name);
      && answer == NewBucketResponse && OnlyRoom(w, w', id, w'.rooms[id], w'.dbs[id]) && w'.channel == w.channel
      && Declares(w.rooms[id], w'.rooms[id], b, Trim(name))
      && RecordSet(w.dbs[id], w'.dbs[id], id, b, Some(BucketRecord(b, StoredLabel(name), 0)))
  {
    PairOf(w, id);
    NewBucketMoves(w, id, b, name);
    var r, s := AddBucket(w.rooms[id], b, Trim(name)), PutBucket(w.dbs[id], id, RecordFor(b, Trim(name)));
    var rec := RecordFor(b, Trim(name));
    MovedOnly(w, id, r, s, if id in w.cache then WithRecord(w.cache[id], rec) else map[], w.channel);
    AddBucketOutcome(w.rooms[id], b, Trim(name));
    PutBucketOutcome(w.dbs[id], id, b, name);
  }

  /** Deleting a bucket takes it out of memory with its label and flags, and takes its record but not its fragments. */
  lemma DeleteBucketOutcome(w: World, id: nat, b: u64)
    requires Ready(w, id)
    ensures var (w', answer) := DoDeleteBucket(w, id, b);
      && answer == DeleteBucketResponse && OnlyRoom(w, w', id, w'.rooms[id], w'.dbs[id]) && w'.channel == w.channel
      && RecordSet(w.dbs[id], w'.dbs[id], id, b, None)
      && var r, r' := w.rooms[id], w'.rooms[id];
         && r'.loaded && r'.counter == r.counter && r'.members == r.members
         && r'.buckets == r.buckets - {b} && r'.labels == r.labels - {b} && r'.flags == r.flags - {b}
  {
    PairOf(w, id);
    DeleteBucketMoves(w, id, b);
    MovedOnly(w, id, DropBucket(w.rooms[id], b), RemoveBucket(w.dbs[id], id, b),
              if id in w.cache then w.cache[id] - {b} else map[], w.channel);
    DropBucketOutcome(w.rooms[id], b);
    RemoveBucketOutcome(w.dbs[id], id, b);
  }

  /** Unloaded and loaded, or restarted and loaded. */
  ghost predicate ComesBack(w: World, w': World, id: nat) {
    w' == Reloaded(w, id) || w' == ColdStarted(w, id)
  }

  lemma BackAsStored(w: World, w': World, id: nat)
    requires Ready(w, id) && ComesBack(w, w', id)
    ensures id in w'.rooms && w'.rooms[id].loaded && AsStored(w'.rooms[id], w.dbs[id], id)
  {
    if w' == Reloaded(w, id) {
      UnloadAgrees(w, id);
      LoadRoomOutcome(DoUnloadRoom(w, id).0, id);
    } else {
      RestartAgrees(w);
      LoadRoomOutcome(Restart(w), id);
    }
  }

  /** Same members, same declared buckets, and no label that was not shown before. */
  ghost predicate SameMetadata(r: Room, r': Room) {
    && r'.members == r.members && r'.flags.Keys == r.flags.Keys
    && forall b: u64 :: Lookup(r'.labels, b).Some? ==> Lookup(r.labels, b) == Lookup(r'.labels, b)
  }

  lemma RecordedMetadata(r: Room, r': Room, records: Records, members: set<string>)
    requires MetadataAgrees(r, records, members) && AsRecorded(r', records, members)
    ensures SameMetadata(r, r')
  {
    assert forall b: u64 :: b in r'.flags <==> Lookup(r'.flags, b).Some?;
  }

  /** Members, declared buckets and stored labels are the same after unload and load and after a restart and load. */
  lemma MetadataSurvives(w: World, w': World, id: nat)
    requires Ready(w, id) && ComesBack(w, w', id)
    ensures id in w'.rooms && SameMetadata(w.rooms[id], w'.rooms[id])
  {
    PairOf(w, id);
    BackAsStored(w, w', id);
    RecordedMetadata(w.rooms[id], w'.rooms[id], Scan(w.dbs[id]), StoredMembers(w.dbs[id], id));
  }

  /** The label of a declared bucket is the one declared, at once, after unload and load, and after a restart. */
  lemma LabelSurvives(w: World, w1: World, w2: World, id: nat, b: u64, name: string)
    requires Ready(w, id) && w1 == DoNewBucket(w, id, b, name).0 && ComesBack(w1, w2, id)
    ensures id in w1.rooms && (Trim(name) != "" ==> Lookup(w1.rooms[id].labels, b) == Some(Trim(name)))
    ensures id in w2.rooms && Lookup(w2.rooms[id].labels, b) == if Trim(name) != "" then Some(Trim(name)) else None
  {
    NewBucketOutcome(w, id, b, name);
    NewBucketAgrees(w, id, b, name);
    BackAsStored(w1, w2, id);
    assert Lookup(Scan(w1.dbs[id]), b) == Some(BucketRecord(b, StoredLabel(name), 0));
  }

  // ---------- members ----------

  ghost predicate MembersSet(s: Store, s': Store, id: nat, names: set<string>) {
    && StoredMembers(s', id) == names && Scan(s') == Scan(s)
    && forall b: u64, k :: StoredAt(s', b, k) == StoredAt(s, b, k)
  }

  lemma WithMembersOutcome(s: Store, id: nat, names: set<string>)
    requires Sound(s, id)
    ensures MembersSet(s, WithMembers(s, id, names), id, names)
  {
    MembersWritten(s, id, names);
  }

  lemma RoomAndStoreOnly(w: World, id: nat, r: Room, s: Store)
    requires id in w.rooms && id in w.dbs
    ensures var w' := WithStore(WithRoom(w, id, r), id, s); OnlyRoom(w, w', id, r, s) && w'.channel == w.channel
  {
  }

  lemma MembersMoveOnly(w: World, w': World, id: nat, names: set<string>)
    requires Ready(w, id)
    requires w' == WithStore(WithRoom(w, id, w.rooms[id].(members := names)), id, WithMembers(w.dbs[id], id, names))
    ensures OnlyRoom(w, w', id, w.rooms[id].(members := names), w'.dbs[id]) && w'.channel == w.channel
    ensures MembersSet(w.dbs[id], w'.dbs[id], id, names)
  {
    RoomAndStoreOnly(w, id, w.rooms[id].(members := names), WithMembers(w.dbs[id], id, names));
    assert Sound(w.dbs[id], id);
    WithMembersOutcome(w.dbs[id], id, names);
  }

  /** A member joins under its trimmed name, in memory and in the store; a blank one changes nothing. */
  lemma NewMemberOutcome(w: World, id: nat, member: string)
    requires Ready(w, id)
    ensures var (w', answer) := DoNewMember(w, id, member);
      var names := if Trim(member) == "" then w.rooms[id].members else w.rooms[id].members + {Trim(member)};
      && answer == NewMemberResponse && w'.channel == w.channel
      && OnlyRoom(w, w', id, w.rooms[id].(members := names), w'.dbs[id])
      && MembersSet(w.dbs[id], w'.dbs[id], id, names)
  {
    PairOf(w, id);
    NewMemberMoves(w, id, member);
    if Trim(member) != "" {
      MembersMoveOnly(w, DoNewMember(w, id, member).0, id, w.rooms[id].members + {Trim(member)});
    }
  }

  lemma DeleteMemberOutcome(w: World, id: nat, member: string)
    requires Ready(w, id)
    ensures var (w', answer) := DoDeleteMember(w, id, member);
      var names := w.rooms[id].members - {Trim(member)};
      && answer == DeleteMemberResponse && w'.channel == w.channel
      && OnlyRoom(w, w', id, w.rooms[id].(members := names), w'.dbs[id])
      && MembersSet(w.dbs[id], w'.dbs[id], id, names)
  {
    PairOf(w, id);
    MembersMoveOnly(w, DoDeleteMember(w, id, member).0, id, w.rooms[id].members - {Trim(member)});
  }

  // ---------- fragments ----------

  /** One fragment is stored or gone; all other fragments, the records and the members stay. */
  ghost predicate FragmentSet(s: Store, s': Store, id: nat, b: u64, k: string, value: Option<Value>) {
    && (forall b': u64, k' :: StoredAt(s', b', k') == if b' == b && k' == k then value else StoredAt(s, b', k'))
    && Scan(s') == Scan(s) && StoredMembers(s', id) == StoredMembers(s, id)
  }

  lemma PutFragmentOutcome(s: Store, id: nat, b: u64, k: string, v: Value)
    requires Sound(s, id)
    ensures FragmentSet(s, PutFragment(s, b, k, Durable(v)), id, b, k, if v == Null then None else Some(v))
  {
    FragmentWritten(s, id, b, k, Durable(v));
    FragmentKeepsSound(s, id, b, k, Durable(v));
  }

  ghost predicate EntrySet(r: Room, r': Room, b: u64, k: string, v: Value) {
    && r' == r.(counter := r.counter + 1, buckets := r'.buckets)
    && forall b': u64, k' :: EntryAt(r', b', k') ==
                             if b' == b && k' == k then Some(Entry(v, r.counter + 1)) else EntryAt(r, b', k')
  }

  lemma SetOutcome(r: Room, b: u64, k: string, v: Value)
    requires Idle(r)
    ensures EntrySet(r, Apply(r, Set(b, k, v)).0, b, k, v)
  {
    forall b': u64, k' {
      PutEntry(r, Set(b, k, v), b', k');
    }
  }

  lemma WriteMovesOnly(w: World, id: nat, b: u64, k: string, v: Value)
    requires id in w.rooms && id in w.dbs && w.rooms[id].loaded
    ensures var (w', answer) := DoWriteFragment(w, id, b, k, v);
      var r := Apply(w.rooms[id], Set(b, k, v)).0;
      && answer == FragmentWriteResponse
      && OnlyRoom(w, w', id, r, PutFragment(w.dbs[id], b, k, Durable(v)))
      && w'.channel == if |w.channel| < 1024
                       then w.channel + [Broadcast(DataUpdate(b, k, Some(v), if r.ioLocked then 0 else r.counter))]
                       else w.channel
  {
  }

  /** A write is in memory under the next version, in the store unless null, and on the channel if there is room. */
  lemma WriteOutcome(w: World, id: nat, b: u64, k: string, v: Value)
    requires Ready(w, id)
    ensures var (w', answer) := DoWriteFragment(w, id, b, k, v);
      && answer == FragmentWriteResponse && OnlyRoom(w, w', id, w'.rooms[id], w'.dbs[id])
      && EntrySet(w.rooms[id], w'.rooms[id], b, k, v)
      && FragmentSet(w.dbs[id], w'.dbs[id], id, b, k, if v == Null then None else Some(v))
      && w'.channel == if |w.channel| < 1024
                       then w.channel + [Broadcast(DataUpdate(b, k, Some(v), w.rooms[id].counter + 1))]
                       else w.channel
  {
    PairOf(w, id);
    WriteMovesOnly(w, id, b, k, v);
    SetOutcome(w.rooms[id], b, k, v);
    PutFragmentOutcome(w.dbs[id], id, b, k, v);
  }

  /** A read of a loaded room answers the live value or nothing; of another, as the refusals say. It changes nothing. */
  lemma ReadOutcome(w: World, id: nat, b: u64, k: string)
    requires Agrees(w)
    ensures Handle(w, ReadFragment(id, b, k)).0 == w
    ensures Answer(w, id, b, k) ==
            if id !in w.rooms then FragmentReadResponse(None)
            else if !w.rooms[id].loaded then LoadRoomResponse(Failed(RoomNotLoaded))
            else if Live(w.rooms[id], b, k) then FragmentReadResponse(Some(EntryAt(w.rooms[id], b, k).value.value))
            else FragmentReadResponse(None)
  {
    if id in w.rooms {
      PairOf(w, id);
      if w.rooms[id].loaded { AnswerOf(w, id, b, k); }
    }
  }

  // ---------- which rooms are loaded ----------

  /** Whether a room is loaded, told from the run: what last created, loaded, unloaded or restarted it. */
  ghost predicate LoadedBy(steps: seq<WorldStep>, id: nat) {
    steps != [] &&
    var init, last := steps[..|steps| - 1], steps[|steps| - 1];
    if last == Issue(LoadRoom(id)) || (last == Issue(NewRoomCommand) && id == After(init).nextRoomId) then true
    else if last == Issue(UnloadRoom(id)) || last.ColdStart? then false
    else LoadedBy(init, id)
  }

  lemma LoadedStep(w: World, c: Command, id: nat)
    requires Agrees(w) && id in Handle(w, c).0.rooms
    ensures var r' := Handle(w, c).0.rooms[id];
      if c == LoadRoom(id) || (c == NewRoomCommand && id == w.nextRoomId) then r'.loaded
      else if c == UnloadRoom(id) then !r'.loaded
      else id in w.rooms && r'.loaded == w.rooms[id].loaded
  {
    if c == LoadRoom(id) {
      LoadAgrees(w, id);
    } else if !c.NewRoomCommand? && c != UnloadRoom(id) {
      LoadedKept(w, c, id);
    }
  }

  lemma LoadedNext(w: World, w': World, step: WorldStep, id: nat)
    requires Agrees(w) && w' == Next(w, step) && id in w'.rooms
    ensures if step == Issue(LoadRoom(id)) || (step == Issue(NewRoomCommand) && id == w.nextRoomId)
            then w'.rooms[id].loaded
            else if step == Issue(UnloadRoom(id)) || step.ColdStart? then !w'.rooms[id].loaded
            else id in w.rooms && w'.rooms[id].loaded == w.rooms[id].loaded
  {
    if step.Issue? { LoadedStep(w, step.command, id); }
  }

  lemma LoadedKeptHere(w: World, c: Command, id: nat)
    requires WorldVersions.OnLoadedRoom(w, c, id)
    ensures id in Handle(w, c).0.rooms && Handle(w, c).0.rooms[id].loaded
  {
    WorldVersions.HandledRoom(w, c, id);
    assert Lookup(Handle(w, c).0.rooms, id).Some?;
    assert WorldVersions.RoomAfter(w.rooms[id], c).loaded;
  }

  lemma LoadedKept(w: World, c: Command, id: nat)
    requires !c.NewRoomCommand? && c != LoadRoom(id) && c != UnloadRoom(id)
    ensures id in Handle(w, c).0.rooms <==> id in w.rooms
    ensures id in w.rooms ==> Handle(w, c).0.rooms[id].loaded == w.rooms[id].loaded
  {
    if WorldVersions.OnLoadedRoom(w, c, id) {
      LoadedKeptHere(w, c, id);
    } else {
      WorldVersions.OtherCommandMovesOn(w, c, id);
      assert Lookup(Handle(w, c).0.rooms, id).Some? <==> id in Handle(w, c).0.rooms;
    }
  }

  /** In every reachable state a room is loaded exactly if the run says so, and holds nothing if it is not. */
  lemma {:induction false} LoadedIsTold(steps: seq<WorldStep>, id: nat)
    requires id in After(steps).rooms
    ensures After(steps).rooms[id].loaded <==> LoadedBy(steps, id)
    ensures !LoadedBy(steps, id) ==> HoldsNothing(After(steps).rooms[id])
  {
    var init, last := steps[..|steps| - 1], steps[|steps| - 1];
    AlwaysAgrees(steps);
    AlwaysAgrees(init);
    if id in After(init).rooms { LoadedIsTold(init, id); }
    LoadedNext(After(init), After(steps), last, id);
  }

  /** Until it is loaded again, an unloaded room answers every other command with the refusal and does not change. */
  lemma UnloadedUntilLoaded(steps: seq<WorldStep>, c: Command, id: nat)
    requires id in After(steps).rooms && !LoadedBy(steps, id)
    requires !c.NewRoomCommand? && !c.LoadRoom? && !c.UnloadRoom? && c.room == id
    ensures Handle(After(steps), c) == (After(steps), LoadRoomResponse(Failed(RoomNotLoaded)))
  {
    AlwaysAgrees(steps);
    LoadedIsTold(steps, id);
    UnloadedRefuses(After(steps), c, id);
  }
}
