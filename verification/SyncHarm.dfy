/** A harmful write can always be continued to a client that never converges; and what nobody announces. */
module SyncHarm {
  import opened Basics
  import opened Protocol
  import opened RoomModel
  import opened RoomTheorems
  import opened HubModel
  import opened HubTheorems
  import opened SyncModel
  import opened SyncTheorems
  import Kernel

  // ---------- continuations ----------

  ghost predicate Leads(s: Sync, steps: seq<SyncStep>, t: Sync) {
    Orderly(s, steps) && RunFrom(s, steps) == t
  }

  /** Some history without harmful writes leads from one state to the other. */
  ghost predicate Reach(s: Sync, t: Sync) {
    exists steps :: Leads(s, steps, t)
  }

  lemma ReachSelf(s: Sync)
    ensures Reach(s, s)
  {
    assert Leads(s, [], s);
  }

  lemma ReachStep(s: Sync, step: SyncStep)
    requires Plain(s, step) && Harmless(s, step)
    ensures Reach(s, DoSync(s, step))
  {
    var next := DoSync(s, step);
    assert [step][1..] == [] && Orderly(next, []) && RunFrom(next, []) == next;
    assert Leads(s, [step], DoSync(s, step));
  }

  lemma {:induction false} RunJoined(s: Sync, first: seq<SyncStep>, second: seq<SyncStep>)
    ensures RunFrom(s, first + second) == RunFrom(RunFrom(s, first), second)
    ensures Orderly(s, first + second) <==> Orderly(s, first) && Orderly(RunFrom(s, first), second)
    decreases |first|
  {
    if first == [] {
      assert first + second == second;
    } else {
      RunJoined(DoSync(s, first[0]), first[1..], second);
      assert (first + second)[1..] == first[1..] + second;
    }
  }

  lemma ReachJoined(s: Sync, t: Sync, u: Sync)
    requires Reach(s, t) && Reach(t, u)
    ensures Reach(s, u)
  {
    var first :| Leads(s, first, t);
    var second :| Leads(t, second, u);
    RunJoined(s, first, second);
    assert Leads(s, first + second, u);
  }

  // ---------- everybody leaves, everything drains ----------

  function Emptied(s: Sync): Sync {
    s.(hub := Hub(s.hub.nextConnId, map[], map[]))
  }

  lemma NobodyLeft(s: Sync)
    requires Indexed(s.hub) && s.hub.connections == map[]
    ensures s == Emptied(s)
  {
    assert Indexed(Emptied(s).hub);
    SameHub(s.hub, Emptied(s).hub);
  }

  lemma OneFewer(connections: map<u64, Client>, c: u64)
    requires c in connections
    ensures |connections - {c}| < |connections|
  {
    assert connections.Keys == (connections - {c}).Keys + {c};
  }

  lemma OneLeaves(s: Sync, c: u64) returns (s': Sync)
    requires HubSound(s.hub) && c in s.hub.connections
    ensures Reach(s, s') && HubSound(s'.hub) && Emptied(s') == Emptied(s)
    ensures |s'.hub.connections| < |s.hub.connections|
  {
    s' := DoSync(s, Leave(c));
    DepartSound(s.hub, c);
    ReachStep(s, Leave(c));
    OneFewer(s.hub.connections, c);
  }

  lemma {:induction false} EverybodyLeaves(s: Sync)
    requires HubSound(s.hub)
    ensures Reach(s, Emptied(s))
    decreases |s.hub.connections|
  {
    if s.hub.connections == map[] {
      NobodyLeft(s);
      ReachSelf(s);
    } else {
      var c :| c in s.hub.connections;
      var s' := OneLeaves(s, c);
      EverybodyLeaves(s');
      ReachJoined(s, s', Emptied(s));
    }
  }

  ghost predicate Deserted(s: Sync) {
    s.hub.connections == map[] && s.hub.buckets == map[]
  }

  lemma DesertedForward(s: Sync)
    requires Deserted(s) && s.channel != []
    ensures DoForward(s) == s.(channel := s.channel[1..])
  {
    match s.channel[0]
    case Broadcast(u) =>
      assert BroadcastTo(s.hub, u).connections == map[] && BroadcastTo(s.hub, u).buckets == map[];
    case Targeted(_, _) =>
  }

  lemma {:induction false} ChannelDrains(s: Sync)
    requires Deserted(s)
    ensures Reach(s, s.(channel := []))
    decreases |s.channel|
  {
    if s.channel == [] {
      ReachSelf(s);
    } else {
      DesertedForward(s);
      ReachStep(s, ForwardOne);
      ChannelDrains(DoForward(s));
      ReachJoined(s, DoForward(s), s.(channel := []));
    }
  }

  lemma Announced(s: Sync, w: nat)
    requires s.channel == [] && w in s.writers && s.writers[w].Stamped?
    ensures DoAnnounce(s, w) == s.(channel := [Broadcast(s.writers[w].update)], writers := s.writers - {w})
  {
  }

  /** A writer that has read the counter sends into the void. */
  lemma StampedFinishes(s: Sync, w: nat)
    requires Deserted(s) && s.channel == [] && w in s.writers && s.writers[w].Stamped?
    ensures Reach(s, s.(writers := s.writers - {w}))
  {
    var s1 := DoSync(s, Announce(w));
    Announced(s, w);
    DesertedForward(s1);
    assert s1.channel[1..] == [];
    ReachStep(s, Announce(w));
    ReachStep(s1, ForwardOne);
    ReachJoined(s, s1, s.(writers := s.writers - {w}));
  }

  lemma WriterFinishes(s: Sync, w: nat) returns (t: Sync)
    requires Deserted(s) && s.channel == [] && w in s.writers
    ensures Reach(s, t) && t == s.(writers := s.writers - {w}, stamps := t.stamps)
  {
    var s1 := DoSync(s, Stamp(w));
    assert s1.writers - {w} == s.writers - {w};
    ReachStep(s, Stamp(w));
    StampedFinishes(s1, w);
    t := s1.(writers := s1.writers - {w});
    ReachJoined(s, s1, t);
  }

  lemma {:induction false} OthersFinish(s: Sync, keep: nat) returns (t: Sync)
    requires Deserted(s) && s.channel == [] && keep in s.writers
    ensures Reach(s, t) && t == s.(writers := map[keep := s.writers[keep]], stamps := t.stamps)
    decreases |s.writers|
  {
    if w :| w in s.writers && w != keep {
      var s' := WriterFinishes(s, w);
      assert |s'.writers| < |s.writers| by {
        assert s.writers.Keys == s'.writers.Keys + {w};
      }
      t := OthersFinish(s', keep);
      ReachJoined(s, s', t);
    } else {
      assert s.writers == map[keep := s.writers[keep]];
      t := s;
      ReachSelf(s);
    }
  }

  // ---------- the overtaken write is sent last ----------

  /** The room holds another value of the key. */
  predicate Overruled(r: Room, u: DataUpdate) {
    var e := EntryAt(r, u.bucket, u.key);
    u.bucket != SERVER_ONLY_BUCKET_ID && e.Some? && u.value.Some? && u.value.value != e.value.value
  }

  /** Alone at work, overruled by the room, and either ahead of the room's version or overruled by a tombstone. */
  ghost predicate LastWord(s: Sync, w: nat) {
    && Deserted(s) && s.channel == [] && s.writers.Keys == {w} && s.writers[w].Stamped?
    && Overruled(s.room, s.writers[w].update) && Unanswered(s.room, s.writers[w].update)
  }

  predicate Unanswered(r: Room, u: DataUpdate) {
    var e := EntryAt(r, u.bucket, u.key);
    e.Some? && (u.counter > e.value.version || e.value.value == Null)
  }

  function SecondKey(u: DataUpdate): (k: string)
    ensures k != u.key
  {
    u.key + "'"
  }

  /** Another key of the bucket is written and sent. */
  lemma AnotherKeyFirst(s: Sync, w: nat) returns (t: Sync)
    requires Base(s) && Deserted(s) && s.channel == [] && s.writers.Keys == {w}
    ensures var u := s.writers[w].update; var cmd := Set(u.bucket, SecondKey(u), Null);
      Reach(s, t) && t == s.(room := Put(s.room, cmd), stamps := t.stamps) && Base(t)
  {
    var u := s.writers[w].update;
    var extra := Write(w + 1, u.bucket, SecondKey(u), Null);
    var s1 := DoSync(s, extra);
    ReachStep(s, extra);
    BaseStep(s, extra);
    t := OthersFinish(s1, w);
    ReachJoined(s, s1, t);
    assert t.writers == s.writers;
  }

  /** And only then the counter is read: it is above the version of the entry. */
  lemma ReadsLateCounter(s: Sync, w: nat) returns (t: Sync)
    requires Base(s) && Deserted(s) && s.channel == [] && s.writers.Keys == {w} && s.writers[w].Written?
    requires Overruled(s.room, s.writers[w].update)
    ensures Reach(s, t) && LastWord(t, w) && t.hub == s.hub && t.lost == s.lost
  {
    var u := s.writers[w].update;
    var s1 := AnotherKeyFirst(s, w);
    PutEntry(s.room, Set(u.bucket, SecondKey(u), Null), u.bucket, u.key);
    t := DoSync(s1, Stamp(w));
    ReachStep(s1, Stamp(w));
    ReachJoined(s, s1, t);
  }

  /** From a state with an overtaken writer of a harmful write on, everybody else gets out of its way. */
  lemma OvertakenLast(s: Sync, w: nat, v: Value) returns (t: Sync)
    requires Base(s) && w in s.writers
    requires Overruled(s.room, s.writers[w].update) && Overtaken(s.writers[w], v)
    requires EntryAt(s.room, s.writers[w].update.bucket, s.writers[w].update.key).value.value == v
    ensures Reach(s, t) && LastWord(t, w) && t.hub.nextConnId == s.hub.nextConnId && t.lost == s.lost
  {
    var s1 := Emptied(s);
    var s2 := s1.(channel := []);
    EverybodyLeaves(s);
    ChannelDrains(s1);
    ReachJoined(s, s1, s2);
    t := OthersFinish(s2, w);
    ReachJoined(s, s2, t);
    if t.writers[w].Written? {
      var t' := ReadsLateCounter(t, w);
      ReachJoined(s, t, t');
      t := t';
    }
  }

  // ---------- a client joins and hears it ----------

  function Lone(conn: u64, allowed: set<u64>, queue: seq<DataUpdate>): Hub
    requires conn < U64_MAX
  {
    Hub(conn + 1, map[conn := Client(ROOM_ID, allowed, queue, true)], map b | b in allowed :: {conn})
  }

  lemma LoneJoins(s: Sync, claims: set<u64>)
    requires Deserted(s) && s.hub.nextConnId < U64_MAX
    ensures var conn, allowed := s.hub.nextConnId, AllowedBuckets(claims, SERVER_ONLY_BUCKET_ID);
      DoJoin(s, claims) == s.(hub := Lone(conn, allowed, []), taken := s.taken[conn := []],
                              phase := s.phase[conn := Waiting(allowed)])
  {
    var conn, allowed := s.hub.nextConnId, AllowedBuckets(claims, SERVER_ONLY_BUCKET_ID);
    assert forall b :: Subscribers(Allocate(s.hub), b) == {};
    assert forall b | b in allowed :: ListedUnder(s.hub.buckets, conn, allowed)[b] == {conn};
  }

  /** The one message on the channel concerns the lone client: it is queued and taken, and nothing else changes. */
  lemma LoneHears(s: Sync, conn: u64, allowed: set<u64>, m: ChannelMessage)
    requires conn < U64_MAX && s.hub == Lone(conn, allowed, []) && conn in s.taken
    requires s.channel == [m] && Concerns(m, conn, allowed)
    ensures Reach(s, s.(channel := [], taken := s.taken[conn := s.taken[conn] + [m.update]]))
  {
    var s1 := DoSync(s, ForwardOne);
    LoneQueued(conn, allowed, m);
    assert s.channel[1..] == [];
    var s2 := DoSync(s1, TakeOne(conn));
    assert s1.hub.connections[conn].queue[1..] == [];
    assert s2.hub == s.hub;
    ReachStep(s, ForwardOne);
    ReachStep(s1, TakeOne(conn));
    ReachJoined(s, s1, s2);
  }

  lemma LoneQueued(conn: u64, allowed: set<u64>, m: ChannelMessage)
    requires conn < U64_MAX && Concerns(m, conn, allowed)
    ensures Forward(Lone(conn, allowed, []), m) == Lone(conn, allowed, [m.update])
  {
    var h, h' := Lone(conn, allowed, []), Lone(conn, allowed, [m.update]);
    assert [] + [m.update] == [m.update];
    match m
    case Broadcast(u) =>
      assert Subscribers(h, u.bucket) == {conn};
      assert forall b | b in allowed :: Remaining(h, {conn}, b) == {conn};
      assert BroadcastTo(h, u).connections == h'.connections;
      assert BroadcastTo(h, u).buckets == h'.buckets;
    case Targeted(_, u) =>
      assert Enqueue(h.connections[conn], u) == h'.connections[conn];
      assert h.connections[conn := h'.connections[conn]] == h'.connections;
  }

  function Received(s: Sync, c: u64, updates: seq<DataUpdate>, phase: Phase): Sync
    requires c in s.taken
  {
    s.(taken := s.taken[c := s.taken[c] + updates], phase := s.phase[c := phase])
  }

  /** One turn of the sending loop, forwarded and taken at once. */
  lemma LoneSyncsOne(s: Sync, conn: u64, allowed: set<u64>, todo: seq<DataUpdate>)
    requires conn < U64_MAX && s.hub == Lone(conn, allowed, []) && conn in s.taken && s.channel == []
    requires conn in s.phase && s.phase[conn] == Sending(todo) && todo != []
    ensures Reach(s, Received(s, conn, [todo[0]], Sending(todo[1..])))
  {
    var s1, m := DoSync(s, SendNext(conn)), Targeted(conn, todo[0]);
    assert s1 == s.(channel := [m], phase := s.phase[conn := Sending(todo[1..])]);
    ReachStep(s, SendNext(conn));
    LoneHears(s1, conn, allowed, m);
    ReachJoined(s, s1, Received(s, conn, [todo[0]], Sending(todo[1..])));
  }

  lemma ReceivedMore(s: Sync, c: u64, first: seq<DataUpdate>, second: seq<DataUpdate>, phase: Phase, phase': Phase)
    requires c in s.taken
    ensures Received(Received(s, c, first, phase), c, second, phase') == Received(s, c, first + second, phase')
  {
    assert s.taken[c] + first + second == s.taken[c] + (first + second);
  }

  /** Initial sync, each update sent, forwarded and taken before the next. */
  lemma {:induction false} LoneSyncs(s: Sync, conn: u64, allowed: set<u64>, todo: seq<DataUpdate>)
    requires conn < U64_MAX && s.hub == Lone(conn, allowed, []) && conn in s.taken && s.channel == []
    requires conn in s.phase && s.phase[conn] == Sending(todo)
    ensures Reach(s, Received(s, conn, todo, Synced))
    decreases |todo|
  {
    if todo == [] {
      ReachStep(s, SendNext(conn));
      assert s.taken[conn] + todo == s.taken[conn] && s.taken[conn := s.taken[conn]] == s.taken;
    } else {
      var s1 := Received(s, conn, [todo[0]], Sending(todo[1..]));
      LoneSyncsOne(s, conn, allowed, todo);
      LoneSyncs(s1, conn, allowed, todo[1..]);
      ReceivedMore(s, conn, [todo[0]], todo[1..], Sending(todo[1..]), Synced);
      assert [todo[0]] + todo[1..] == todo;
      ReachJoined(s, s1, Received(s, conn, todo, Synced));
    }
  }

  // ---------- what initial sync finds ----------

  function LiveKeys(r: Room, requested: set<u64>): set<(u64, string)> {
    set b, k | b in r.buckets && b in requested && k in r.buckets[b] && r.buckets[b][k].value != Null :: (b, k)
  }

  lemma {:induction false} ListUpdates(r: Room, keys: set<(u64, string)>) returns (updates: seq<DataUpdate>)
    requires forall p :: p in keys ==> EntryAt(r, p.0, p.1).Some?
    ensures forall i | 0 <= i < |updates| ::
              && (updates[i].bucket, updates[i].key) in keys
              && updates[i] == Kernel.SyncUpdate(updates[i].bucket, updates[i].key,
                                                 EntryAt(r, updates[i].bucket, updates[i].key).value)
    ensures forall p | p in keys :: Kernel.SyncUpdate(p.0, p.1, EntryAt(r, p.0, p.1).value) in updates
  {
    updates := [];
    if p :| p in keys {
      var rest := ListUpdates(r, keys - {p});
      updates := rest + [Kernel.SyncUpdate(p.0, p.1, EntryAt(r, p.0, p.1).value)];
      assert (p.0, p.1) == p;
    }
  }

  /** The room can be collected: a list of its live fragments exists. */
  lemma SyncListExists(r: Room, requested: set<u64>) returns (updates: seq<DataUpdate>)
    ensures Kernel.SyncList(r, requested, updates)
  {
    assert forall p | p in LiveKeys(r, requested) :: EntryAt(r, p.0, p.1).Some?;
    updates := ListUpdates(r, LiveKeys(r, requested));
    forall b: u64, k | b in requested && Live(r, b, k)
      ensures Kernel.SyncUpdate(b, k, EntryAt(r, b, k).value) in updates
    {
      assert (b, k) in LiveKeys(r, requested);
    }
  }

  // ---------- the client is left behind ----------

  ghost predicate Diverged(s: Sync, c: u64, replaceOnTie: bool) {
    AtRest(s, c) && !Converged(s, c, replaceOnTie)
  }

  /** Whoever hears the last word and then what initial sync has to say shows the last word. */
  lemma LastWordShows(r: Room, u: DataUpdate, requested: set<u64>, updates: seq<DataUpdate>, tie: bool)
    requires Kernel.SyncList(r, requested, updates)
    requires Overruled(r, u) && Unanswered(r, u)
    ensures Lookup(ClientView([u] + updates, tie), (u.bucket, u.key)) ==
            if u.value == Some(Null) then None else u.value
  {
    var m, p := MergeAll([u] + updates, tie), (u.bucket, u.key);
    MergeKeepsHighest([u] + updates, tie, u.bucket, u.key);
    assert ([u] + updates)[0] == u && About(u, u.bucket, u.key);
    assert p in m && u.counter <= m[p].counter;
    assert forall i | 0 <= i < |updates| && About(updates[i], u.bucket, u.key) ::
        updates[i] == Kernel.SyncUpdate(u.bucket, u.key, EntryAt(r, u.bucket, u.key).value);
  }

  lemma LiveContentAt(r: Room, allowed: set<u64>, b: u64, k: string)
    ensures Lookup(LiveContent(r, allowed), (b, k)) ==
            if b in allowed && Live(r, b, k) then Some(EntryAt(r, b, k).value.value) else None
  {
  }

  lemma LastWordDiverges(s: Sync, w: nat, tie: bool) returns (t: Sync, c: u64)
    requires LastWord(s, w) && s.hub.nextConnId < U64_MAX
    ensures Reach(s, t) && Diverged(t, c, tie) && t.lost == s.lost
  {
    var u := s.writers[w].update;
    c := s.hub.nextConnId;
    var allowed := AllowedBuckets({u.bucket}, SERVER_ONLY_BUCKET_ID);
    var updates := SyncListExists(s.room, allowed);
    t := HearsAndSyncs(s, w, c, allowed, updates);
    assert t.taken[c] == [u] + updates;
    LastWordShows(s.room, u, allowed, updates, tie);
    LiveContentAt(s.room, allowed, u.bucket, u.key);
    var p := (u.bucket, u.key);
    assert Lookup(ClientView(t.taken[c], tie), p) != Lookup(LiveContent(t.room, allowed), p);
  }

  function Welcomed(s: Sync, c: u64, allowed: set<u64>): Sync
    requires c < U64_MAX
  {
    s.(hub := Lone(c, allowed, []), taken := s.taken[c := []], phase := s.phase[c := Waiting(allowed)])
  }

  /** The new client hears the last word before it is synced. */
  lemma HearsLastWord(s: Sync, w: nat, c: u64, allowed: set<u64>)
    requires LastWord(s, w) && c == s.hub.nextConnId < U64_MAX
    requires allowed == AllowedBuckets({s.writers[w].update.bucket}, SERVER_ONLY_BUCKET_ID)
    ensures Reach(s, Welcomed(s, c, allowed).(writers := map[], taken := s.taken[c := [s.writers[w].update]]))
  {
    var u, s1 := s.writers[w].update, Welcomed(s, c, allowed);
    LoneJoins(s, {u.bucket});
    ReachStep(s, Join({u.bucket}));
    Announced(s1, w);
    assert s1.writers - {w} == map[];
    ReachStep(s1, Announce(w));
    var s2 := s1.(channel := [Broadcast(u)], writers := map[]);
    ReachJoined(s, s1, s2);
    LoneHears(s2, c, allowed, Broadcast(u));
    assert [] + [u] == [u] && s.taken[c := []][c := [u]] == s.taken[c := [u]];
    ReachJoined(s, s2, s1.(writers := map[], taken := s.taken[c := [u]]));
  }

  lemma HearsAndSyncs(s: Sync, w: nat, c: u64, allowed: set<u64>, updates: seq<DataUpdate>) returns (t: Sync)
    requires LastWord(s, w) && c == s.hub.nextConnId < U64_MAX
    requires allowed == AllowedBuckets({s.writers[w].update.bucket}, SERVER_ONLY_BUCKET_ID)
    requires Kernel.SyncList(s.room, allowed, updates)
    ensures Reach(s, t) && AtRest(t, c) && t.room == s.room && t.lost == s.lost && t.hub == Lone(c, allowed, [])
    ensures t.taken[c] == [s.writers[w].update] + updates
  {
    var u := s.writers[w].update;
    var s1 := Welcomed(s, c, allowed).(writers := map[], taken := s.taken[c := [u]]);
    HearsLastWord(s, w, c, allowed);
    var s2 := s1.(phase := s1.phase[c := Sending(updates)]);
    assert DoSync(s1, Collect(c, updates)) == s2;
    ReachStep(s1, Collect(c, updates));
    LoneSyncs(s2, c, allowed, updates);
    t := Received(s2, c, updates, Synced);
    ReachJoined(s, s1, s2);
    ReachJoined(s, s2, t);
  }

  // ---------- exactly the harmful writes ----------

  /** Every update being written carries a value. */
  ghost predicate Valued(s: Sync) {
    forall w :: w in s.writers ==> s.writers[w].update.value.Some?
  }

  lemma {:induction false} ValuedFrom(s: Sync, steps: seq<SyncStep>)
    requires Valued(s)
    ensures Valued(RunFrom(s, steps))
    decreases |steps|
  {
    if steps != [] {
      ValuedStep(s, steps[0]);
      ValuedFrom(DoSync(s, steps[0]), steps[1..]);
    }
  }

  lemma ValuedStep(s: Sync, step: SyncStep)
    requires Valued(s)
    ensures Valued(DoSync(s, step))
  {
    match step
    case Write(w, b, k, v) => ValuedUpdate(s.writers, w, DoWrite(s, w, b, k, v).writers);
    case Stamp(w) => ValuedUpdate(s.writers, w, DoStamp(s, w).writers);
    case Announce(w) =>
    case _ => assert DoSync(s, step).writers == s.writers;
  }

  lemma ValuedUpdate(writers: map<nat, Writer>, w: nat, writers': map<nat, Writer>)
    requires forall x :: x in writers ==> writers[x].update.value.Some?
    requires w in writers' ==> writers'[w].update.value.Some?
    requires forall x :: x in writers' && x != w ==> x in writers && writers'[x] == writers[x]
    ensures forall x :: x in writers' ==> writers'[x].update.value.Some?
  {
  }

  lemma HarmDiverges(s: Sync, w: nat, b: u64, k: string, v: Value, tie: bool) returns (t: Sync, c: u64)
    requires Base(s) && Valued(s) && !s.lost && s.hub.nextConnId < U64_MAX
    requires w !in s.writers && Harms(s, b, k, v)
    ensures Reach(DoSync(s, Write(w, b, k, v)), t) && !t.lost && Diverged(t, c, tie)
  {
    var s', cmd := DoSync(s, Write(w, b, k, v)), Set(b, k, v);
    var other :| other in s.writers && About(s.writers[other].update, b, k) && Overtaken(s.writers[other], v);
    BaseStep(s, Write(w, b, k, v));
    PutEntry(s.room, cmd, b, k);
    assert s'.writers[other] == s.writers[other];
    var last := OvertakenLast(s', other, v);
    t, c := LastWordDiverges(last, other, tie);
    ReachJoined(s', last, t);
  }

  /**
   From every state the protocol reaches, after any writes: a harmful write to a bucket clients may see can go on,
   with no further harmful write and no broadcast lost, to a client at rest that does not show the room.
   */
  lemma HarmfulWriteDiverges(room: Room, steps: seq<SyncStep>, w: nat, b: u64, k: string, v: Value, tie: bool)
    returns (t: Sync, c: u64)
    requires Versioned(room) && Idle(room) && PlainRun(Start(room), steps)
    requires var s := RunSync(room, steps);
      !s.lost && s.hub.nextConnId < U64_MAX && w !in s.writers && Harms(s, b, k, v)
    ensures Reach(DoSync(RunSync(room, steps), Write(w, b, k, v)), t) && !t.lost && Diverged(t, c, tie)
  {
    StartOk(room);
    BaseFrom(Start(room), steps);
    ValuedFrom(Start(room), steps);
    t, c := HarmDiverges(RunSync(room, steps), w, b, k, v, tie);
  }

  ghost predicate CanDiverge(s: Sync, tie: bool) {
    exists t, c :: Reach(s, t) && !t.lost && Diverged(t, c, tie)
  }

  /**
   After any history without a harmful write, the next write does harm if and only if some client can be left at rest
   with something the room does not hold, although nothing harmful follows and no broadcast is lost.
   */
  lemma HarmExact(room: Room, steps: seq<SyncStep>, w: nat, b: u64, k: string, v: Value, tie: bool)
    requires Versioned(room) && Idle(room) && Orderly(Start(room), steps)
    requires var s := RunSync(room, steps); !s.lost && s.hub.nextConnId < U64_MAX && w !in s.writers
    ensures Harms(RunSync(room, steps), b, k, v) <==> CanDiverge(DoSync(RunSync(room, steps), Write(w, b, k, v)), tie)
  {
    var s, s' := RunSync(room, steps), DoSync(RunSync(room, steps), Write(w, b, k, v));
    SyncAlwaysOk(room, steps);
    if Harms(s, b, k, v) {
      ValuedFrom(Start(room), steps);
      var t, c := HarmDiverges(s, w, b, k, v, tie);
    } else {
      SyncStepOk(s, Write(w, b, k, v));
      NeverDiverges(s', tie);
    }
  }

  lemma NeverDiverges(s: Sync, tie: bool)
    requires SyncOk(s)
    ensures !CanDiverge(s, tie)
  {
    forall t, c | Reach(s, t) && !t.lost && AtRest(t, c)
      ensures Converged(t, c, tie)
    {
      var steps :| Leads(s, steps, t);
      SyncOkFrom(s, steps);
      RestingClientConverged(t, c, tie);
    }
  }

  // ---------- the three ways to overlap ----------

  const OLDER := Json("1")
  const NEWER := Json("2")

  /** The first of two writes to a key of bucket 0, up to the point where the second one starts. */
  function FirstWrite(stamped: bool): seq<SyncStep> {
    if stamped then [Write(1, 0, "k", OLDER), Stamp(1)] else [Write(1, 0, "k", OLDER)]
  }

  lemma FirstWriteReached(stamped: bool)
    ensures var s := RunSync(NewRoom(true), FirstWrite(stamped));
      && Orderly(Start(NewRoom(true)), FirstWrite(stamped)) && !s.lost && s.hub == EMPTY_HUB && s.writers.Keys == {1}
      && About(s.writers[1].update, 0, "k") && s.writers[1].update.value == Some(OLDER)
      && (s.writers[1].Stamped? <==> stamped)
  {
    var s, steps := Start(NewRoom(true)), FirstWrite(stamped);
    var s1 := DoSync(s, steps[0]);
    assert Orderly(s, steps) == Orderly(s1, steps[1..]) && RunFrom(s, steps) == RunFrom(s1, steps[1..]);
    if stamped {
      assert steps[1..] == [Stamp(1)] && [Stamp(1)][1..] == [];
    } else {
      assert steps[1..] == [];
    }
  }

  /**
   Started before the first has read the counter, a second write of another value can leave a client on the older
   value; started after that, it can do so exactly when it writes null. In each case there is a history that does.
   */
  lemma OverlapDiverges(stamped: bool, v: Value, tie: bool)
    ensures CanDiverge(DoSync(RunSync(NewRoom(true), FirstWrite(stamped)), Write(2, 0, "k", v)), tie)
       <==> if stamped then v == Null else v != OLDER
  {
    FirstWriteReached(stamped);
    NewRoomVersioned(true);
    HarmExact(NewRoom(true), FirstWrite(stamped), 2, 0, "k", v, tie);
  }

  // ---------- what nobody announces ----------

  /** The room may have moved, but nothing that reaches the client. */
  lemma SameClient(s: Sync, s': Sync, c: u64, tie: bool)
    requires s' == s.(room := s'.room) && AtRest(s, c) && Converged(s, c, tie)
    ensures AtRest(s', c)
    ensures var buckets := s.hub.connections[c].buckets;
      Converged(s', c, tie) <==> LiveContent(s'.room, buckets) == LiveContent(s.room, buckets)
  {
    var view, buckets := ClientView(s.taken[c], tie), s.hub.connections[c].buckets;
    assert view == LiveContent(s.room, buckets);
    assert Converged(s', c, tie) <==> view == LiveContent(s'.room, buckets);
  }

  /**
   Transactions, direct deletes, bucket deletions, loads and unloads put nothing on the channel: a client at rest that
   shows the room still does if and only if the event leaves the live content of its buckets as it was.
   */
  lemma SilentEvent(s: Sync, s': Sync, c: u64, e: Event, tie: bool)
    requires AtRest(s, c) && Converged(s, c, tie) && s' == DoSync(s, Happens(e))
    ensures AtRest(s', c)
    ensures var buckets := s.hub.connections[c].buckets;
      Converged(s', c, tie) <==> LiveContent(s'.room, buckets) == LiveContent(s.room, buckets)
  {
    assert s' == s.(room := s'.room);
    SameClient(s, s', c, tie);
  }

  lemma LessContent(r: Room, r': Room, buckets: set<u64>, b: u64, k: string)
    requires b in buckets && Live(r, b, k) && !Live(r', b, k)
    ensures LiveContent(r', buckets) != LiveContent(r, buckets)
  {
    LiveContentAt(r, buckets, b, k);
    LiveContentAt(r', buckets, b, k);
  }

  /** Deleting a bucket with a live fragment that the client may see leaves the client behind, and so does unloading. */
  lemma LeftBehind(s: Sync, s': Sync, c: u64, e: Event, b: u64, k: string, tie: bool)
    requires AtRest(s, c) && Converged(s, c, tie) && b in s.hub.connections[c].buckets && Live(s.room, b, k)
    requires (e == BucketDropped(b) || e == Unloaded) && s' == DoSync(s, Happens(e))
    ensures Diverged(s', c, tie)
  {
    assert EntryAt(s'.room, b, k).None?;
    LessContent(s.room, s'.room, s.hub.connections[c].buckets, b, k);
    SilentEvent(s, s', c, e, tie);
  }
}
