/**
 The in-memory server state: a table of room objects updated in place. Every method is tied to the room
 functions of RoomModel; reads that build JSON are loops that visit the hash maps in any order.
 */
module AppState {
  import opened Basics
  import opened KeyCodec
  import opened RoomModel

  /** One persisted bucket as `load_room_data` receives it. */
  datatype BucketDef = BucketDef(id: u64, title: Option<string>, flags: nat)

  function StoredOf(defs: seq<BucketDef>, fragments: map<u64, map<string, Value>>): map<u64, map<string, Value>> {
    if defs == [] then map[]
    else
      var id := defs[|defs| - 1].id;
      StoredOf(defs[..|defs| - 1], fragments)[id := if id in fragments then fragments[id] else map[]]
  }

  function LabelsOf(defs: seq<BucketDef>): map<u64, string> {
    if defs == [] then map[]
    else
      var rest, last := LabelsOf(defs[..|defs| - 1]), defs[|defs| - 1];
      if last.title.Some? then rest[last.id := last.title.value] else rest
  }

  function FlagsOf(defs: seq<BucketDef>): map<u64, nat> {
    if defs == [] then map[] else FlagsOf(defs[..|defs| - 1])[defs[|defs| - 1].id := defs[|defs| - 1].flags]
  }

  predicate Labels(defs: seq<BucketDef>, i: nat, b: u64)
    requires i < |defs|
  {
    defs[i].id == b && defs[i].title.Some?
  }

  /** The label of a bucket is that of its last definition with a label: one without leaves an earlier one standing. */
  lemma {:induction false} LastLabelCounts(defs: seq<BucketDef>, b: u64)
    ensures match Lookup(LabelsOf(defs), b)
            case None => forall i | 0 <= i < |defs| :: !Labels(defs, i, b)
            case Some(t) => exists i | 0 <= i < |defs| :: Labels(defs, i, b) && defs[i].title == Some(t)
                              && forall j | i < j < |defs| :: !Labels(defs, j, b)
  {
    if defs != [] {
      var init, n := defs[..|defs| - 1], |defs| - 1;
      LastLabelCounts(init, b);
      assert forall i | 0 <= i < n :: Labels(defs, i, b) == Labels(init, i, b) && defs[i] == init[i];
      if Labels(defs, n, b) {
        assert Lookup(LabelsOf(defs), b) == defs[n].title;
      } else {
        assert Lookup(LabelsOf(defs), b) == Lookup(LabelsOf(init), b);
      }
    }
  }

  /** A defined bucket has the flags of its last definition, and all the fragments given for it, or none. */
  lemma {:induction false} LastFlagsCount(defs: seq<BucketDef>, fragments: map<u64, map<string, Value>>, b: u64)
    ensures match Lookup(FlagsOf(defs), b)
            case None => forall i | 0 <= i < |defs| :: defs[i].id != b
            case Some(f) => exists i | 0 <= i < |defs| :: defs[i].id == b && defs[i].flags == f
                              && forall j | i < j < |defs| :: defs[j].id != b
    ensures b in StoredOf(defs, fragments) <==> exists i | 0 <= i < |defs| :: defs[i].id == b
    ensures b in StoredOf(defs, fragments) ==>
              StoredOf(defs, fragments)[b] == if b in fragments then fragments[b] else map[]
  {
    if defs != [] {
      var init, n := defs[..|defs| - 1], |defs| - 1;
      LastFlagsCount(init, fragments, b);
      assert forall i | 0 <= i < n :: defs[i] == init[i];
      if defs[n].id == b {
        assert Lookup(FlagsOf(defs), b) == Some(defs[n].flags);
      } else {
        assert Lookup(FlagsOf(defs), b) == Lookup(FlagsOf(init), b);
      }
    }
  }

  lemma NamedInsert(m: map<u64, map<string, Value>>, b: u64, fragments: map<string, Value>)
    ensures Named(m[b := fragments]) == Named(m)[BucketName(b) := fragments]
  {
    BucketNamesInjective();
  }

  lemma PrefixStep<T>(s: seq<T>, i: nat)
    requires i < |s|
    ensures s[..i + 1] != [] && s[..i + 1][..|s[..i + 1]| - 1] == s[..i] && s[..i + 1][|s[..i + 1]| - 1] == s[i]
  {
  }

  lemma FreshBucketsInsert(stored: map<u64, map<string, Value>>, b: u64, fragments: map<string, Value>)
    ensures FreshBuckets(stored[b := fragments]) == FreshBuckets(stored)[b := FreshEntries(fragments)]
  {
  }

  method CollectLive(fragments: Fragments) returns (out: map<string, Value>)
    ensures out == LiveFragments(fragments)
  {
    out := map[];
    var todo := fragments.Keys;
    while todo != {}
      invariant todo <= fragments.Keys
      invariant out == map k | k in fragments && k !in todo && fragments[k].value != Null :: fragments[k].value
    {
      var key :| key in todo;
      todo := todo - {key};
      if fragments[key].value != Null {
        out := out[key := fragments[key].value];
      }
    }
  }

  method CollectNewer(fragments: Fragments, since: nat) returns (out: map<string, Value>)
    ensures out == NewerFragments(fragments, since)
  {
    out := map[];
    var todo := fragments.Keys;
    while todo != {}
      invariant todo <= fragments.Keys
      invariant out == map k | k in fragments && k !in todo && fragments[k].version > since :: fragments[k].value
    {
      var key :| key in todo;
      todo := todo - {key};
      if fragments[key].version > since {
        out := out[key := fragments[key].value];
      }
    }
  }

  class RoomState {
    var buckets: map<u64, Fragments>
    var roomCounter: nat
    var txBuffer: Option<seq<RoomCommand>>
    var ioLocked: bool
    var loaded: bool
    var bucketLabels: map<u64, string>
    var bucketFlags: map<u64, nat>
    var members: set<string>

    ghost function View(): Room
      reads this
    {
      Room(buckets, roomCounter, txBuffer, ioLocked, loaded, bucketLabels, bucketFlags, members)
    }

    constructor (loaded: bool)
      ensures View() == NewRoom(loaded)
    {
      buckets, roomCounter, txBuffer, ioLocked := map[], 0, None, false;
      this.loaded := loaded;
      bucketLabels, bucketFlags, members := map[], map[], {};
    }

    method Insert(b: u64, key: string, value: Value)
      modifies this
      ensures View() == Put(old(View()), Set(b, key, value))
    {
      roomCounter := roomCounter + 1;
      var bucketMap := if b in buckets then buckets[b] else map[];
      buckets := buckets[b := bucketMap[key := Entry(value, roomCounter)]];
    }

    method SetFragment(b: u64, key: string, value: Value) returns (status: Status)
      modifies this
      ensures (View(), status) == Apply(old(View()), Set(b, key, value))
    {
      if ioLocked { return Failed(RoomIoBusy); }
      if !loaded { return Failed(RoomNotLoaded); }
      if txBuffer.Some? {
        txBuffer := Some(txBuffer.value + [Set(b, key, value)]);
        return Done;
      }
      Insert(b, key, value);
      return Done;
    }

    method DelFragment(b: u64, key: string) returns (status: Status)
      modifies this
      ensures (View(), status) == Apply(old(View()), Del(b, key))
    {
      if ioLocked { return Failed(RoomIoBusy); }
      if !loaded { return Failed(RoomNotLoaded); }
      if txBuffer.Some? {
        txBuffer := Some(txBuffer.value + [Del(b, key)]);
        return Done;
      }
      if b !in buckets { return Failed(BucketNotFound); }
      roomCounter := roomCounter + 1;
      buckets := buckets[b := buckets[b][key := Entry(Null, roomCounter)]];
      return Done;
    }

    method Get(b: u64, key: string) returns (result: Fetched)
      ensures result == GetFragment(View(), b, key)
    {
      if ioLocked { return Missing(RoomIoBusy); }
      if !loaded { return Missing(RoomNotLoaded); }
      if b !in buckets { return Missing(BucketNotFound); }
      if key !in buckets[b] { return Missing(FragmentNotFound); }
      var fragment := buckets[b][key];
      if fragment.value == Null { return Missing(FragmentTombstone); }
      return Found(fragment.value, fragment.version);
    }

    method Begin() returns (status: Status)
      modifies this
      ensures (View(), status) == TxBegin(old(View()))
    {
      if ioLocked { return Failed(RoomIoBusy); }
      if txBuffer.Some? { return Failed(TxAlreadyOpen); }
      txBuffer := Some([]);
      return Done;
    }

    method End() returns (status: Status)
      modifies this
      ensures (View(), status) == TxEnd(old(View()))
    {
      if ioLocked { return Failed(RoomIoBusy); }
      if txBuffer.None? { return Failed(TxNotOpen); }
      var buffer := txBuffer.value;
      txBuffer := None;
      ghost var start := View();
      for i := 0 to |buffer|
        invariant View() == Commit(start, buffer[..i])
      {
        PrefixStep(buffer, i);
        match buffer[i]
        case Set(b, key, value) => Insert(b, key, value);
        case Del(b, key) => Insert(b, key, Null);
      }
      assert buffer[..|buffer|] == buffer;
      return Done;
    }

    method Abort() returns (status: Status)
      modifies this
      ensures (View(), status) == TxAbort(old(View()))
    {
      if ioLocked { return Failed(RoomIoBusy); }
      txBuffer := None;
      return Done;
    }

    method MakeSnapshot(allowed: set<u64>) returns (extract: Extract)
      ensures extract == Snapshot(View(), allowed)
    {
      var out: map<string, map<string, Value>> := map[];
      var todo := buckets.Keys;
      assert LiveBuckets(View(), allowed, todo) == map[];
      while todo != {}
        invariant todo <= buckets.Keys
        invariant out == Named(LiveBuckets(View(), allowed, todo))
      {
        var b :| b in todo;
        LiveBucketsStep(View(), allowed, todo, b);
        todo := todo - {b};
        if b == SERVER_ONLY_BUCKET_ID { continue; }
        if b == 0 || b in allowed {
          var bucketMap := CollectLive(buckets[b]);
          out := out[BucketName(b) := bucketMap];
        }
      }
      LiveBucketsAll(View(), allowed);
      return Extract(roomCounter, out);
    }

    method MakeDelta(since: nat, allowed: set<u64>) returns (extract: Extract)
      ensures extract == Delta(View(), since, allowed)
    {
      if since >= roomCounter {
        return Extract(roomCounter, map[]);
      }
      var out: map<string, map<string, Value>> := map[];
      var todo := buckets.Keys;
      assert NewerBuckets(View(), since, allowed, todo) == map[];
      while todo != {}
        invariant todo <= buckets.Keys
        invariant out == Named(NewerBuckets(View(), since, allowed, todo))
      {
        var b :| b in todo;
        NewerBucketsStep(View(), since, allowed, todo, b);
        todo := todo - {b};
        if b == SERVER_ONLY_BUCKET_ID { continue; }
        if b != 0 && b !in allowed { continue; }
        var bucketMap := CollectNewer(buckets[b], since);
        if bucketMap != map[] {
          out := out[BucketName(b) := bucketMap];
        }
      }
      NewerBucketsAll(View(), since, allowed);
      return Extract(roomCounter, out);
    }

    method LoadData(defs: seq<BucketDef>, memberSet: set<string>, fragments: map<u64, map<string, Value>>)
      modifies this
      ensures View() == Load(old(View()), StoredOf(defs, fragments), LabelsOf(defs), FlagsOf(defs), memberSet)
    {
      buckets, bucketLabels, bucketFlags := map[], map[], map[];
      for i := 0 to |defs|
        invariant buckets == FreshBuckets(StoredOf(defs[..i], fragments))
        invariant bucketLabels == LabelsOf(defs[..i]) && bucketFlags == FlagsOf(defs[..i])
        invariant View() == old(View()).(buckets := buckets, labels := bucketLabels, flags := bucketFlags)
      {
        PrefixStep(defs, i);
        var def := defs[i];
        bucketFlags := bucketFlags[def.id := def.flags];
        if def.title.Some? {
          bucketLabels := bucketLabels[def.id := def.title.value];
        }
        var fragMap := if def.id in fragments then fragments[def.id] else map[];
        FreshBucketsInsert(StoredOf(defs[..i], fragments), def.id, fragMap);
        buckets := buckets[def.id := map key | key in fragMap :: Entry(fragMap[key], 0)];
      }
      assert defs[..|defs|] == defs;
      members := memberSet;
      loaded := true;
    }

    method Evict()
      modifies this
      ensures View() == Unload(old(View()))
    {
      loaded := false;
      buckets, bucketLabels, bucketFlags, members := map[], map[], map[], {};
    }
  }

  /** The buckets a snapshot loop has collected while `todo` is still to visit. */
  ghost function LiveBuckets(r: Room, allowed: set<u64>, todo: set<u64>): map<u64, map<string, Value>> {
    map b | b in r.buckets && b !in todo && Visible(b, allowed) :: LiveFragments(r.buckets[b])
  }

  lemma LiveBucketsStep(r: Room, allowed: set<u64>, todo: set<u64>, b: u64)
    requires b in todo && b in r.buckets
    ensures Named(LiveBuckets(r, allowed, todo - {b})) ==
            if Visible(b, allowed)
            then Named(LiveBuckets(r, allowed, todo))[BucketName(b) := LiveFragments(r.buckets[b])]
            else Named(LiveBuckets(r, allowed, todo))
  {
    if Visible(b, allowed) {
      assert LiveBuckets(r, allowed, todo - {b}) == LiveBuckets(r, allowed, todo)[b := LiveFragments(r.buckets[b])];
      NamedInsert(LiveBuckets(r, allowed, todo), b, LiveFragments(r.buckets[b]));
    } else {
      assert LiveBuckets(r, allowed, todo - {b}) == LiveBuckets(r, allowed, todo);
    }
  }

  lemma LiveBucketsAll(r: Room, allowed: set<u64>)
    ensures Extract(r.counter, Named(LiveBuckets(r, allowed, {}))) == Snapshot(r, allowed)
  {
    assert LiveBuckets(r, allowed, {}) == VisibleLive(r, allowed);
  }

  /** The buckets a delta loop has collected while `todo` is still to visit. */
  ghost function NewerBuckets(r: Room, since: nat, allowed: set<u64>, todo: set<u64>): map<u64, map<string, Value>> {
    map b | b in r.buckets && b !in todo && Visible(b, allowed) && NewerFragments(r.buckets[b], since) != map[]
          :: NewerFragments(r.buckets[b], since)
  }

  lemma NewerBucketsStep(r: Room, since: nat, allowed: set<u64>, todo: set<u64>, b: u64)
    requires b in todo && b in r.buckets
    ensures var newer := NewerFragments(r.buckets[b], since);
            Named(NewerBuckets(r, since, allowed, todo - {b})) ==
            if Visible(b, allowed) && newer != map[]
            then Named(NewerBuckets(r, since, allowed, todo))[BucketName(b) := newer]
            else Named(NewerBuckets(r, since, allowed, todo))
  {
    var newer := NewerFragments(r.buckets[b], since);
    if Visible(b, allowed) && newer != map[] {
      assert NewerBuckets(r, since, allowed, todo - {b}) == NewerBuckets(r, since, allowed, todo)[b := newer];
      NamedInsert(NewerBuckets(r, since, allowed, todo), b, newer);
    } else {
      assert NewerBuckets(r, since, allowed, todo - {b}) == NewerBuckets(r, since, allowed, todo);
    }
  }

  lemma NewerBucketsAll(r: Room, since: nat, allowed: set<u64>)
    ensures Extract(r.counter, Named(NewerBuckets(r, since, allowed, {}))) == Filtered(r, since, allowed)
  {
    assert NewerBuckets(r, since, allowed, {}) == VisibleNewer(r, since, allowed);
  }

  function Largest(s: seq<nat>): (m: nat)
    ensures forall x | x in s :: x <= m
    ensures s != [] ==> m in s
  {
    if s == [] then 0
    else
      var rest, last := Largest(s[..|s| - 1]), s[|s| - 1];
      assert s == s[..|s| - 1] + [last];
      if |s| == 1 || last > rest then last else rest
  }

  /** Each room id has an object of its own. */
  ghost predicate OwnObjects(rooms: map<nat, RoomState>) {
    forall id, id' :: id in rooms && id' in rooms && rooms[id] == rooms[id'] ==> id == id'
  }

  ghost function Views(rooms: map<nat, RoomState>): map<nat, Room>
    reads rooms.Values
  {
    map id | id in rooms :: rooms[id].View()
  }

  lemma OneMoreObject(rooms: map<nat, RoomState>, id: nat, room: RoomState)
    requires OwnObjects(rooms) && room !in rooms.Values
    ensures OwnObjects(rooms[id := room]) && rooms[id := room].Values <= rooms.Values + {room}
  {
  }

  lemma OneMoreView(rooms: map<nat, RoomState>, id: nat, room: RoomState)
    ensures Views(rooms[id := room]) == Views(rooms)[id := room.View()]
  {
  }

  function Stubs(existing: seq<nat>): map<nat, Room> {
    if existing == [] then map[] else Stubs(existing[..|existing| - 1])[existing[|existing| - 1] := NewRoom(false)]
  }

  lemma {:induction false} StubsAll(existing: seq<nat>)
    ensures Stubs(existing) == map id | id in existing :: NewRoom(false)
  {
    if existing != [] {
      StubsAll(existing[..|existing| - 1]);
      assert existing == existing[..|existing| - 1] + [existing[|existing| - 1]];
    }
  }

  class AppState {
    var rooms: map<nat, RoomState>
    var nextRoomId: nat

    ghost predicate Valid()
      reads this
    {
      OwnObjects(rooms)
    }

    ghost function Rooms(): map<nat, Room>
      reads this, rooms.Values
    {
      Views(rooms)
    }

    ghost function Cell(id: nat): set<RoomState>
      reads this
    {
      if id in rooms then {rooms[id]} else {}
    }

    constructor ()
      ensures Valid() && rooms == map[] && Rooms() == map[] && nextRoomId == 1
    {
      rooms, nextRoomId := map[], 1;
    }

    method InsertRoom(id: nat, isLoaded: bool)
      requires Valid()
      modifies this`rooms
      ensures Valid() && fresh(rooms.Values - old(rooms.Values))
      ensures Rooms() == old(Rooms())[id := NewRoom(isLoaded)]
    {
      var room := new RoomState(isLoaded);
      OneMoreObject(rooms, id, room);
      OneMoreView(rooms, id, room);
      rooms := rooms[id := room];
    }

    method CreateRoom() returns (id: nat)
      requires Valid()
      modifies this
      ensures Valid() && id == old(nextRoomId) && nextRoomId == id + 1
      ensures fresh(rooms.Values - old(rooms.Values))
      ensures Rooms() == old(Rooms())[id := NewRoom(true)]
    {
      id := nextRoomId;
      nextRoomId := nextRoomId + 1;
      InsertRoom(id, true);
    }

    /** Startup: every store found on disk becomes an unloaded stub, and new ids start above all of them. */
    method RegisterStubs(existing: seq<nat>)
      requires Valid() && rooms == map[] && nextRoomId == 1
      modifies this
      ensures Valid() && fresh(rooms.Values)
      ensures Rooms() == map id | id in existing :: NewRoom(false)
      ensures nextRoomId == 1 + Largest(existing)
    {
      for i := 0 to |existing|
        invariant Valid() && fresh(rooms.Values) && nextRoomId == 1
        invariant Rooms() == Stubs(existing[..i])
      {
        PrefixStep(existing, i);
        InsertRoom(existing[i], false);
      }
      assert existing[..|existing|] == existing;
      StubsAll(existing);
      if existing != [] && nextRoomId <= Largest(existing) {
        nextRoomId := Largest(existing) + 1;
      }
    }

    method DeleteRoom(id: nat) returns (status: Status)
      requires Valid()
      modifies this
      ensures Valid() && nextRoomId == old(nextRoomId) && rooms == old(rooms) - {id}
      ensures Rooms() == old(Rooms()) - {id}
      ensures status == if id in old(rooms) then Done else Failed(RoomNotFound)
    {
      if id !in rooms { return Failed(RoomNotFound); }
      rooms := rooms - {id};
      return Done;
    }

    method IsRoomLoaded(id: nat) returns (loaded: bool)
      ensures loaded <==> id in rooms && Rooms()[id].loaded
    {
      loaded := id in rooms && rooms[id].loaded;
    }

    method SetFragment(id: nat, b: u64, key: string, value: Value) returns (status: Status)
      requires Valid()
      modifies Cell(id)
      ensures id !in rooms ==> status == Failed(RoomNotFound) && Rooms() == old(Rooms())
      ensures id in rooms ==> var (r, s) := Apply(old(Rooms()[id]), Set(b, key, value));
                              status == s && Rooms() == old(Rooms())[id := r]
    {
      if id !in rooms { return Failed(RoomNotFound); }
      status := rooms[id].SetFragment(b, key, value);
    }

    method DelFragment(id: nat, b: u64, key: string) returns (status: Status)
      requires Valid()
      modifies Cell(id)
      ensures id !in rooms ==> status == Failed(RoomNotFound) && Rooms() == old(Rooms())
      ensures id in rooms ==> var (r, s) := Apply(old(Rooms()[id]), Del(b, key));
                              status == s && Rooms() == old(Rooms())[id := r]
    {
      if id !in rooms { return Failed(RoomNotFound); }
      status := rooms[id].DelFragment(b, key);
    }

    method Fetch(id: nat, b: u64, key: string) returns (result: Fetched)
      ensures result == if id in rooms then GetFragment(Rooms()[id], b, key) else Missing(RoomNotFound)
    {
      if id !in rooms { return Missing(RoomNotFound); }
      result := rooms[id].Get(b, key);
    }

    method RoomVersion(id: nat) returns (result: Counted)
      ensures result == if id in rooms then VersionOf(Rooms()[id]) else NotCounted(RoomNotFound)
    {
      if id !in rooms { return NotCounted(RoomNotFound); }
      if rooms[id].ioLocked { return NotCounted(RoomIoBusy); }
      return Counted(rooms[id].roomCounter);
    }

    method BeginTransaction(id: nat) returns (status: Status)
      requires Valid()
      modifies Cell(id)
      ensures id !in rooms ==> status == Failed(RoomNotFound) && Rooms() == old(Rooms())
      ensures id in rooms ==> var (r, s) := TxBegin(old(Rooms()[id])); status == s && Rooms() == old(Rooms())[id := r]
    {
      if id !in rooms { return Failed(RoomNotFound); }
      status := rooms[id].Begin();
    }

    method EndTransaction(id: nat) returns (status: Status)
      requires Valid()
      modifies Cell(id)
      ensures id !in rooms ==> status == Failed(RoomNotFound) && Rooms() == old(Rooms())
      ensures id in rooms ==> var (r, s) := TxEnd(old(Rooms()[id])); status == s && Rooms() == old(Rooms())[id := r]
    {
      if id !in rooms { return Failed(RoomNotFound); }
      status := rooms[id].End();
    }

    method AbortTransaction(id: nat) returns (status: Status)
      requires Valid()
      modifies Cell(id)
      ensures id !in rooms ==> status == Failed(RoomNotFound) && Rooms() == old(Rooms())
      ensures id in rooms ==> var (r, s) := TxAbort(old(Rooms()[id])); status == s && Rooms() == old(Rooms())[id := r]
    {
      if id !in rooms { return Failed(RoomNotFound); }
      status := rooms[id].Abort();
    }

    method RoomSnapshot(id: nat, allowed: set<u64>) returns (extract: Option<Extract>)
      ensures extract == if id in rooms then Some(Snapshot(Rooms()[id], allowed)) else None
    {
      if id !in rooms { return None; }
      var e := rooms[id].MakeSnapshot(allowed);
      return Some(e);
    }

    method RoomDelta(id: nat, since: nat, allowed: set<u64>) returns (extract: Option<Extract>)
      ensures extract == if id in rooms then Some(Delta(Rooms()[id], since, allowed)) else None
    {
      if id !in rooms { return None; }
      var e := rooms[id].MakeDelta(since, allowed);
      return Some(e);
    }

    method LoadRoomData(id: nat, defs: seq<BucketDef>, members: set<string>, fragments: map<u64, map<string, Value>>)
      returns (status: Status)
      requires Valid()
      modifies Cell(id)
      ensures id !in rooms ==> status == Failed(RoomNotFound) && Rooms() == old(Rooms())
      ensures id in rooms ==>
                && status == Done
                && Rooms() == old(Rooms())[id := Load(old(Rooms()[id]), StoredOf(defs, fragments), LabelsOf(defs),
                                                      FlagsOf(defs), members)]
    {
      if id !in rooms { return Failed(RoomNotFound); }
      rooms[id].LoadData(defs, members, fragments);
      return Done;
    }

    method UnloadRoom(id: nat) returns (status: Status)
      requires Valid()
      modifies Cell(id)
      ensures id !in rooms ==> status == Failed(RoomNotFound) && Rooms() == old(Rooms())
      ensures id in rooms ==> status == Done && Rooms() == old(Rooms())[id := Unload(old(Rooms()[id]))]
    {
      if id !in rooms { return Failed(RoomNotFound); }
      rooms[id].Evict();
      return Done;
    }
  }
}
